/** What saving the user's sticker settings makes of the known sets. */
module StickerSets {
  import opened Basics

  datatype SetId = SetId(id: nat)
  type Doc = int

  const CUSTOM := SetId(0xFFFF_FFFF_FFFF_FFFF)
  const CLOUD_RECENT := SetId(0xFFFF_FFFF_FFFF_FFFC)
  const CLOUD_RECENT_ATTACHED := SetId(0xFFFF_FFFF_FFFF_FFF9)

  datatype Kind = Stickers | Masks | Emoji

  datatype StickersSet = StickersSet(
    stickers: seq<Doc>, installed: bool, archived: bool, featured: bool, special: bool, emoji: bool, masks: bool,
    locked: bool, installDate: int)

  type Sets = map<SetId, StickersSet>

  function KindOf(s: StickersSet): Kind { if s.emoji then Emoji else if s.masks then Masks else Stickers }

  /** What keeps a set that is not installed. */
  predicate Kept(s: StickersSet) { s.featured || s.special || s.emoji || s.locked }

  /** Why a set is remembered at all. */
  predicate HasReason(s: StickersSet) { Kept(s) || s.installed || s.archived }

  predicate IsCloud(id: SetId) { id == CLOUD_RECENT || id == CLOUD_RECENT_ATTACHED }

  // ---------- removing sets, one by one ----------

  /** `asked`: the sets for which an uninstall request was sent, in order. */
  datatype Removal = Removal(sets: Sets, recent: seq<Doc>, asked: seq<SetId>)

  /** Recent stickers without those of a set. */
  function Forget(recent: seq<Doc>, stickers: seq<Doc>): seq<Doc> {
    if recent == [] then []
    else (if recent[0] in stickers then [] else [recent[0]]) + Forget(recent[1..], stickers)
  }

  function Uninstalled(s: StickersSet): StickersSet { s.(installed := false, archived := false, installDate := 0) }

  function RemoveOne(r: Removal, id: SetId): Removal {
    if IsCloud(id) then Removal(r.sets - {CLOUD_RECENT} - {CLOUD_RECENT_ATTACHED} - {CUSTOM}, [], r.asked)
    else if id !in r.sets then r
    else
      var s := r.sets[id];
      var recent := Forget(r.recent, s.stickers);
      if s.archived then r.(recent := recent)
      else Removal(if Kept(s) then r.sets[id := Uninstalled(s)] else r.sets - {id}, recent, r.asked + [id])
  }

  function RemoveAll(r: Removal, removed: seq<SetId>): Removal
    decreases |removed|
  {
    if removed == [] then r else RemoveOne(RemoveAll(r, removed[..|removed| - 1]), removed[|removed| - 1])
  }

  // ---------- the same for one set at a time ----------

  predicate ClearsCloud(removed: seq<SetId>) { CLOUD_RECENT in removed || CLOUD_RECENT_ATTACHED in removed }

  predicate GoesWithCloud(id: SetId, removed: seq<SetId>) { ClearsCloud(removed) && (IsCloud(id) || id == CUSTOM) }

  predicate IsRemoved(id: SetId, removed: seq<SetId>) { id in removed && !IsCloud(id) }

  function Left(s: StickersSet, isRemoved: bool): Option<StickersSet> {
    if isRemoved && !s.archived then (if Kept(s) then Some(Uninstalled(s)) else None) else Some(s)
  }

  /** What the removals make of one set, whatever their order. */
  function AfterRemoval(id: SetId, s: StickersSet, removed: seq<SetId>): Option<StickersSet> {
    if GoesWithCloud(id, removed) then None else Left(s, IsRemoved(id, removed))
  }

  function Remaining(sets: Sets, removed: seq<SetId>): Sets {
    map id | id in sets && AfterRemoval(id, sets[id], removed).Some? :: AfterRemoval(id, sets[id], removed).value
  }

  function Cleared(s: StickersSet, kind: Kind): StickersSet {
    if !s.archived && KindOf(s) == kind then s.(installed := false) else s
  }

  function Placed(s: StickersSet, staysArchived: bool, now: int): StickersSet {
    s.(archived := s.archived && staysArchived, installed := true,
       installDate := if s.installDate == 0 then now else s.installDate)
  }

  /** A remaining set after the order is applied and the unneeded sets are dropped. */
  function Settled(s: StickersSet, inOrder: bool, inRemoved: bool, kind: Kind, now: int): Option<StickersSet> {
    var cleared := Cleared(s, kind);
    var placed := if inOrder then Placed(cleared, inRemoved, now) else cleared;
    if HasReason(placed) then Some(placed) else None
  }

  /** What a whole save makes of one set. */
  function Fate(id: SetId, s: StickersSet, order: seq<SetId>, removed: seq<SetId>, kind: Kind,
    now: int): Option<StickersSet> {
    var left := AfterRemoval(id, s, removed);
    if left.None? then None else Settled(left.value, id in order, id in removed, kind, now)
  }

  function Saved(sets: Sets, order: seq<SetId>, removed: seq<SetId>, kind: Kind, now: int): Sets {
    map id | id in sets && Fate(id, sets[id], order, removed, kind, now).Some? ::
      Fate(id, sets[id], order, removed, kind, now).value
  }

  /** The ids of an order that are known sets. */
  function Known(order: seq<SetId>, sets: Sets): seq<SetId> {
    if order == [] then []
    else Known(order[..|order| - 1], sets) + (if order[|order| - 1] in sets then [order[|order| - 1]] else [])
  }

  lemma RemainingOneMore(sets: Sets, removed: seq<SetId>, id: SetId, recent: seq<Doc>, asked: seq<SetId>)
    ensures RemoveOne(Removal(Remaining(sets, removed), recent, asked), id).sets == Remaining(sets, removed + [id])
  {
    var more := removed + [id];
    assert forall other :: other in more <==> other in removed || other == id;
    var one, all := RemoveOne(Removal(Remaining(sets, removed), recent, asked), id).sets, Remaining(sets, more);
    forall other | other in sets
      ensures (other in one <==> other in all) && (other in one ==> one[other] == all[other])
    {
    }
    assert one.Keys == all.Keys;
  }

  /** The order of the removals does not matter for the sets that remain. */
  lemma {:induction false} RemoveAllIsRemaining(sets: Sets, recent: seq<Doc>, removed: seq<SetId>)
    ensures RemoveAll(Removal(sets, recent, []), removed).sets == Remaining(sets, removed)
    decreases |removed|
  {
    if removed != [] {
      var n := |removed| - 1;
      RemoveAllIsRemaining(sets, recent, removed[..n]);
      var r := RemoveAll(Removal(sets, recent, []), removed[..n]);
      RemainingOneMore(sets, removed[..n], removed[n], r.recent, r.asked);
      assert removed[..n] + [removed[n]] == removed;
    }
    hide Remaining;
  }

  // ---------- what a save guarantees ----------

  /** The new order is the local one without the sets that are gone. */
  lemma {:induction false} OrderIsWhatSurvives(
    sets: Sets, order: seq<SetId>, whole: seq<SetId>, removed: seq<SetId>, kind: Kind, now: int)
    requires order <= whole
    ensures Known(order, Remaining(sets, removed)) == Known(order, Saved(sets, whole, removed, kind, now))
    decreases |order|
  {
    if order != [] {
      var n := |order| - 1;
      OrderIsWhatSurvives(sets, order[..n], whole, removed, kind, now);
      assert order[n] == whole[n] && whole[n] in whole;
    }
  }

  /** Of the saved kind exactly the sets in the order are installed, archived sets aside. */
  lemma InstalledExactlyInOrder(sets: Sets, order: seq<SetId>, removed: seq<SetId>, kind: Kind, now: int, id: SetId)
    requires id in Saved(sets, order, removed, kind, now)
    requires var s := Saved(sets, order, removed, kind, now)[id]; KindOf(s) == kind && !s.archived
    ensures Saved(sets, order, removed, kind, now)[id].installed <==> id in order
  {
    var left := AfterRemoval(id, sets[id], removed).value;
    assert KindOf(left) == KindOf(sets[id]);
  }

  /** No set stays without a reason, and only an archived set that was removed stays archived while in the order. */
  lemma SavedSetsHaveReason(sets: Sets, order: seq<SetId>, removed: seq<SetId>, kind: Kind, now: int, id: SetId)
    requires id in Saved(sets, order, removed, kind, now)
    ensures HasReason(Saved(sets, order, removed, kind, now)[id])
    ensures id in order && Saved(sets, order, removed, kind, now)[id].archived ==> id in removed && sets[id].archived
  {
  }

  /** Saving the same settings once more changes nothing. */
  lemma SavingAgainChangesNothing(sets: Sets, order: seq<SetId>, removed: seq<SetId>, kind: Kind, now: int)
    requires now != 0
    ensures Saved(Saved(sets, order, removed, kind, now), order, removed, kind, now)
      == Saved(sets, order, removed, kind, now)
  {
    var once := Saved(sets, order, removed, kind, now);
    forall id | id in once ensures Fate(id, once[id], order, removed, kind, now) == Some(once[id]) {
      FateIsFixed(id, sets[id], order, removed, kind, now);
    }
  }

  lemma SettledIsFixed(s: StickersSet, isRemoved: bool, inOrder: bool, inRemoved: bool, kind: Kind, now: int)
    requires now != 0 && (isRemoved ==> inRemoved) && Left(s, isRemoved).Some?
    requires Settled(Left(s, isRemoved).value, inOrder, inRemoved, kind, now).Some?
    ensures var settled := Settled(Left(s, isRemoved).value, inOrder, inRemoved, kind, now);
      && Left(settled.value, isRemoved).Some?
      && Settled(Left(settled.value, isRemoved).value, inOrder, inRemoved, kind, now) == settled
  {
  }

  lemma FateIsFixed(id: SetId, s: StickersSet, order: seq<SetId>, removed: seq<SetId>, kind: Kind, now: int)
    requires now != 0 && Fate(id, s, order, removed, kind, now).Some?
    ensures var fate := Fate(id, s, order, removed, kind, now); Fate(id, fate.value, order, removed, kind, now) == fate
  {
    assert IsRemoved(id, removed) ==> id in removed;
    hide Settled, Left, GoesWithCloud, IsRemoved;
    SettledIsFixed(s, IsRemoved(id, removed), id in order, id in removed, kind, now);
  }

  /** A set of another kind that is named nowhere is left as it is. */
  lemma OtherKindUntouched(sets: Sets, order: seq<SetId>, removed: seq<SetId>, kind: Kind, now: int, id: SetId)
    requires id in sets && KindOf(sets[id]) != kind && id !in order && id !in removed && HasReason(sets[id])
    requires !IsCloud(id) && id != CUSTOM
    ensures id in Saved(sets, order, removed, kind, now) && Saved(sets, order, removed, kind, now)[id] == sets[id]
  {
  }

  lemma {:induction false} ForgetDrops(recent: seq<Doc>, stickers: seq<Doc>)
    ensures forall d :: d in Forget(recent, stickers) <==> d in recent && d !in stickers
  {
    if recent != [] {
      ForgetDrops(recent[1..], stickers);
    }
  }

  lemma {:induction false} RecentOnlyShrinks(r: Removal, removed: seq<SetId>, d: Doc)
    requires d in RemoveAll(r, removed).recent
    ensures d in r.recent
    decreases |removed|
  {
    if removed != [] {
      var n := |removed| - 1;
      var before := RemoveAll(r, removed[..n]);
      if !IsCloud(removed[n]) && removed[n] in before.sets {
        ForgetDrops(before.recent, before.sets[removed[n]].stickers);
      }
      RecentOnlyShrinks(r, removed[..n], d);
    }
  }

  /** No sticker of a removed set stays among the recent ones, in whatever order sets are removed. */
  lemma {:induction false} RecentForgetsRemovedSets(sets: Sets, recent: seq<Doc>, removed: seq<SetId>, id: SetId,
    d: Doc)
    requires id in sets && id in removed && !IsCloud(id) && d in sets[id].stickers
    ensures d !in RemoveAll(Removal(sets, recent, []), removed).recent
    decreases |removed|
  {
    var n := |removed| - 1;
    var earlier := removed[..n];
    var before := RemoveAll(Removal(sets, recent, []), earlier);
    assert removed == earlier + [removed[n]];
    if !IsCloud(removed[n]) && removed[n] in before.sets {
      ForgetDrops(before.recent, before.sets[removed[n]].stickers);
    }
    if id in earlier {
      RecentForgetsRemovedSets(sets, recent, earlier, id, d);
    } else {
      RemoveAllIsRemaining(sets, recent, earlier);
      if id !in before.sets {
        CloudForgets(Removal(sets, recent, []), earlier, d);
      }
    }
  }

  lemma {:induction false} CloudForgets(r: Removal, removed: seq<SetId>, d: Doc)
    requires ClearsCloud(removed)
    ensures d !in RemoveAll(r, removed).recent
    decreases |removed|
  {
    var n := |removed| - 1;
    assert removed == removed[..n] + [removed[n]];
    if !IsCloud(removed[n]) {
      CloudForgets(r, removed[..n], d);
      if d in RemoveAll(r, removed).recent {
        var before := RemoveAll(r, removed[..n]);
        if removed[n] in before.sets {
          ForgetDrops(before.recent, before.sets[removed[n]].stickers);
        }
      }
    }
  }
}
