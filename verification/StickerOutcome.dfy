/** What a save comes to, set by set and request by request, without the order in which the loops get there. */
module StickerOutcome {
  import opened Basics
  import opened StickerSets
  import opened StickerSaving

  // ---------- ids and kinds ----------

  /** The ids the cloud's recent stickers are known under, as the last numbers of 64 bits. */
  lemma CloudIds(id: SetId)
    ensures IsCloud(id) <==> id.id == 0x1_0000_0000_0000_0000 - 4 || id.id == 0x1_0000_0000_0000_0000 - 7
    ensures CUSTOM.id == 0x1_0000_0000_0000_0000 - 1
  {
  }

  /** A set of custom emoji is one whatever else it is, then masks, then plain stickers. */
  lemma KindsAre(s: StickersSet)
    ensures KindOf(s) == Emoji <==> s.emoji
    ensures KindOf(s) == Masks <==> s.masks && !s.emoji
    ensures KindOf(s) == Stickers <==> !s.masks && !s.emoji
  {
  }

  // ---------- the sets ----------

  /** A set of the removed list that is uninstalled: an archived one is passed over. */
  predicate IsUninstalled(id: SetId, s: StickersSet, removed: seq<SetId>) {
    id in removed && !s.archived && !IsCloud(id)
  }

  /** What the loops make of one set: the three fields they may change, and the others, which they do not. */
  ghost predicate Becomes(s: StickersSet, t: StickersSet, gone: bool, inOrder: bool, inRemoved: bool, kind: Kind,
    now: int) {
    var was := if gone then 0 else s.installDate;
    && t == s.(installed := t.installed, archived := t.archived, installDate := t.installDate)
    && (t.archived <==> s.archived && (inOrder ==> inRemoved))
    && (t.installed <==> inOrder || (s.installed && !gone && (s.archived || KindOf(s) != kind)))
    && t.installDate == if inOrder && was == 0 then now else was
  }

  lemma SettledBecomes(s: StickersSet, isRemoved: bool, inOrder: bool, inRemoved: bool, kind: Kind, now: int)
    requires Left(s, isRemoved).Some?
    requires Settled(Left(s, isRemoved).value, inOrder, inRemoved, kind, now).Some?
    ensures Becomes(s, Settled(Left(s, isRemoved).value, inOrder, inRemoved, kind, now).value,
      isRemoved && !s.archived, inOrder, inRemoved, kind, now)
  {
  }

  lemma SavedSetIs(sets: Sets, order: seq<SetId>, removed: seq<SetId>, kind: Kind, now: int, id: SetId)
    requires id in Saved(sets, order, removed, kind, now)
    ensures id in sets && Becomes(sets[id], Saved(sets, order, removed, kind, now)[id],
      IsUninstalled(id, sets[id], removed), id in order, id in removed, kind, now)
  {
    SettledBecomes(sets[id], IsRemoved(id, removed), id in order, id in removed, kind, now);
    hide Settled, Left, Becomes;
  }

  /** Which sets are still known after a save. */
  lemma SavedSetsAre(sets: Sets, order: seq<SetId>, removed: seq<SetId>, kind: Kind, now: int, id: SetId)
    ensures id in Saved(sets, order, removed, kind, now) <==>
      && id in sets
      && !((CLOUD_RECENT in removed || CLOUD_RECENT_ATTACHED in removed)
           && id in {CLOUD_RECENT, CLOUD_RECENT_ATTACHED, CUSTOM})
      && var s := sets[id];
      var other := s.featured || s.special || s.emoji || s.locked;
      if IsUninstalled(id, s, removed) then other
      else other || id in order || s.archived || (s.installed && KindOf(s) != kind)
  {
  }

  // ---------- the requests ----------

  /** The removed list asks at this place: for a known set that is not archived, again only if it was kept. */
  predicate AsksAt(sets: Sets, removed: seq<SetId>, i: nat)
    requires i < |removed|
  {
    var id := removed[i];
    && id in sets && !sets[id].archived && !IsCloud(id)
    && (id in removed[..i] ==> Kept(sets[id]))
    && (id == CUSTOM ==> !ClearsCloud(removed[..i]))
  }

  function Asks(sets: Sets, removed: seq<SetId>): seq<SetId>
    decreases |removed|
  {
    if removed == [] then []
    else
      var n := |removed| - 1;
      Asks(sets, removed[..n]) + (if AsksAt(sets, removed, n) then [removed[n]] else [])
  }

  lemma RemainsToAsk(sets: Sets, removed: seq<SetId>, id: SetId)
    ensures var left := Remaining(sets, removed);
      id in left && !left[id].archived && !IsCloud(id) <==> AsksAt(sets, removed + [id], |removed|)
  {
    assert (removed + [id])[..|removed|] == removed;
  }

  /** The uninstall requests, one after the other. */
  lemma {:induction false} UninstallsAre(sets: Sets, recent: seq<Doc>, removed: seq<SetId>)
    ensures RemoveAll(Removal(sets, recent, []), removed).asked == Asks(sets, removed)
    decreases |removed|
  {
    if removed != [] {
      var n := |removed| - 1;
      UninstallsAre(sets, recent, removed[..n]);
      RemoveAllIsRemaining(sets, recent, removed[..n]);
      RemainsToAsk(sets, removed[..n], removed[n]);
      assert removed[..n] + [removed[n]] == removed;
      hide Remaining, AsksAt;
    }
  }

  lemma {:induction false} AskedAt(sets: Sets, removed: seq<SetId>, id: SetId)
    ensures id in Asks(sets, removed) <==>
      exists i: nat :: i < |removed| && removed[i] == id && AsksAt(sets, removed, i)
    decreases |removed|
  {
    if removed != [] {
      var n := |removed| - 1;
      AskedAt(sets, removed[..n], id);
      forall i: nat | i < n ensures AsksAt(sets, removed[..n], i) <==> AsksAt(sets, removed, i) {
        assert removed[..n][..i] == removed[..i];
      }
      hide AsksAt;
    }
  }

  lemma {:induction false} FirstPlace(removed: seq<SetId>, id: SetId) returns (i: nat)
    requires id in removed
    ensures i < |removed| && removed[i] == id && id !in removed[..i]
    decreases |removed|
  {
    if removed[0] == id {
      i := 0;
    } else {
      i := FirstPlace(removed[1..], id);
      assert removed[..i + 1] == [removed[0]] + removed[1..][..i];
      i := i + 1;
    }
  }

  /** A set is uninstalled on the server exactly when it is known, named, not archived and none of the cloud's. */
  lemma UninstallAskedExactly(sets: Sets, recent: seq<Doc>, removed: seq<SetId>, id: SetId)
    requires id != CUSTOM
    ensures id in RemoveAll(Removal(sets, recent, []), removed).asked <==>
      id in sets && IsUninstalled(id, sets[id], removed)
  {
    UninstallsAre(sets, recent, removed);
    AskedAt(sets, removed, id);
    if id in removed {
      var i := FirstPlace(removed, id);
      assert id in sets && !sets[id].archived && !IsCloud(id) ==> AsksAt(sets, removed, i);
    }
    hide RemoveAll, Asks;
  }

  ghost predicate AllDifferent(ids: seq<SetId>) {
    forall i, j :: 0 <= i < j < |ids| ==> ids[i] != ids[j]
  }

  lemma StillDifferent(ids: seq<SetId>, id: SetId)
    requires AllDifferent(ids) && id !in ids
    ensures AllDifferent(ids + [id])
  {
  }

  /** An archived set of the order is installed again, once, unless it was removed. */
  lemma {:induction false} InstallAskedExactly(sets: Sets, order: seq<SetId>, removed: seq<SetId>)
    ensures forall id :: id in Unarchived(sets, order, removed) <==>
      id in order && id in sets && sets[id].archived && id !in removed
    ensures AllDifferent(Unarchived(sets, order, removed))
    decreases |order|
  {
    if order != [] {
      var n := |order| - 1;
      InstallAskedExactly(sets, order[..n], removed);
      var before, id := Unarchived(sets, order[..n], removed), order[n];
      assert forall other :: other in order <==> other in order[..n] || other == id;
      assert forall other :: other in before + [id] <==> other in before || other == id;
      hide AllDifferent;
      if id !in before {
        StillDifferent(before, id);
      }
    }
  }

  // ---------- the recent stickers ----------

  /** A recent sticker stays exactly when the cloud's list is not cleared and no named set that is known has it. */
  predicate StaysRecent(sets: Sets, removed: seq<SetId>, d: Doc) {
    !ClearsCloud(removed) && forall id :: id in removed && id in sets ==> d !in sets[id].stickers
  }

  lemma {:induction false} RecentStaysExactly(sets: Sets, recent: seq<Doc>, removed: seq<SetId>, d: Doc)
    ensures d in RemoveAll(Removal(sets, recent, []), removed).recent <==>
      d in recent && StaysRecent(sets, removed, d)
    decreases |removed|
  {
    if removed != [] {
      var n := |removed| - 1;
      var before := RemoveAll(Removal(sets, recent, []), removed[..n]);
      RecentStaysExactly(sets, recent, removed[..n], d);
      RemoveAllIsRemaining(sets, recent, removed[..n]);
      assert removed == removed[..n] + [removed[n]];
      assert forall id :: id in removed <==> id in removed[..n] || id == removed[n];
      if !IsCloud(removed[n]) && removed[n] in before.sets {
        ForgetDrops(before.recent, before.sets[removed[n]].stickers);
      }
      StickersRemain(sets, removed[..n], removed[n]);
      hide Remaining, Forget;
    }
  }

  /** A set that is gone by now was named itself, or went with the cloud's. */
  lemma StickersRemain(sets: Sets, removed: seq<SetId>, id: SetId)
    ensures var left := Remaining(sets, removed);
      && (id in left ==> id in sets && left[id].stickers == sets[id].stickers)
      && (id in sets && id !in left ==> id in removed || ClearsCloud(removed))
  {
  }
}
