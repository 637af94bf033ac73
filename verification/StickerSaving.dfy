/** `saveStickerSets` and its handlers for one kind of sets, against `StickerSets` and `StickerReorder`. */
module StickerSaving {
  import opened StickerSets
  import R = StickerReorder

  // ---------- the four loops over the sets, as functions ----------

  function ClearedAll(sets: Sets, kind: Kind): Sets { map id | id in sets :: Cleared(sets[id], kind) }

  function PlacedAll(sets: Sets, order: seq<SetId>, removed: seq<SetId>, now: int): Sets {
    map id | id in sets :: if id in order then Placed(sets[id], id in removed, now) else sets[id]
  }

  function WithReason(sets: Sets): Sets { map id | id in sets && HasReason(sets[id]) :: sets[id] }

  /** The archived sets of the order that are installed again, each once. */
  function Unarchived(sets: Sets, order: seq<SetId>, removed: seq<SetId>): seq<SetId> {
    if order == [] then []
    else
      var n := |order| - 1;
      var id := order[n];
      Unarchived(sets, order[..n], removed)
      + (if id in sets && sets[id].archived && id !in removed && id !in order[..n] then [id] else [])
  }

  /** The loops one after the other give each set its fate. */
  lemma LoopsGiveSaved(sets: Sets, order: seq<SetId>, removed: seq<SetId>, kind: Kind, now: int)
    ensures WithReason(PlacedAll(ClearedAll(Remaining(sets, removed), kind), order, removed, now))
         == Saved(sets, order, removed, kind, now)
  {
    hide Cleared, Placed, AfterRemoval, HasReason;
  }

  lemma {:induction false} KnownSame(order: seq<SetId>, a: Sets, b: Sets)
    requires a.Keys == b.Keys
    ensures Known(order, a) == Known(order, b)
    decreases |order|
  {
    if order != [] {
      KnownSame(order[..|order| - 1], a, b);
    }
  }

  method EraseStickers(recent: seq<Doc>, stickers: seq<Doc>) returns (kept: seq<Doc>)
    ensures kept == Forget(recent, stickers)
  {
    kept := recent;
    var i := 0;
    ghost var k := 0;
    while i < |kept|
      invariant 0 <= i <= |kept| && 0 <= k <= |recent| && kept[i..] == recent[k..]
      invariant kept[..i] + Forget(recent[k..], stickers) == Forget(recent, stickers)
      decreases |kept| - i
    {
      assert kept[i] == kept[i..][0] && recent[k] == recent[k..][0];
      assert recent[k..][1..] == recent[k + 1..] && kept[i..][1..] == kept[i + 1..];
      if kept[i] in stickers {
        ghost var was := kept;
        kept := kept[..i] + kept[i + 1..];
        assert kept[..i] == was[..i] && kept[i..] == was[i + 1..];
      } else {
        assert kept[..i + 1] == kept[..i] + [kept[i]];
        i := i + 1;
      }
      k := k + 1;
    }
    assert kept[..i] == kept && recent[k..] == [];
  }

  function ClearedBut(sets: Sets, kind: Kind, rest: set<SetId>): Sets {
    map id | id in sets :: if id in rest then sets[id] else Cleared(sets[id], kind)
  }

  lemma ClearOneMore(sets: Sets, kind: Kind, rest: set<SetId>, id: SetId)
    requires id in rest && id in sets
    ensures ClearedBut(sets, kind, rest)[id] == sets[id]
    ensures ClearedBut(sets, kind, rest - {id}) == ClearedBut(sets, kind, rest)[id := Cleared(sets[id], kind)]
    ensures sets[id].archived || KindOf(sets[id]) != kind ==>
      ClearedBut(sets, kind, rest - {id}) == ClearedBut(sets, kind, rest)
  {
    assert Cleared(sets[id], kind) == sets[id] || (!sets[id].archived && KindOf(sets[id]) == kind);
    hide Cleared, KindOf;
  }

  method ClearInstalled(sets: Sets, kind: Kind) returns (cleared: Sets)
    ensures cleared == ClearedAll(sets, kind)
  {
    cleared := sets;
    var rest := sets.Keys;
    assert ClearedBut(sets, kind, rest) == sets;
    while rest != {}
      invariant rest <= sets.Keys && cleared == ClearedBut(sets, kind, rest)
      decreases |rest|
    {
      hide ClearedBut;
      var id :| id in rest;
      ClearOneMore(sets, kind, rest, id);
      rest := rest - {id};
      var s := sets[id];
      if !s.archived && kind == KindOf(s) {
        cleared := cleared[id := s.(installed := false)];
      }
    }
  }

  method DropWithoutReason(sets: Sets) returns (kept: Sets)
    ensures kept == WithReason(sets)
  {
    kept := sets;
    var rest := sets.Keys;
    while rest != {}
      invariant rest <= sets.Keys
      invariant forall id :: id in kept <==> id in sets && (id in rest || HasReason(sets[id]))
      invariant forall id :: id in kept ==> kept[id] == sets[id]
      decreases |rest|
    {
      var id :| id in rest;
      rest := rest - {id};
      var s := sets[id];
      if !(s.featured || s.installed || s.archived || s.special || s.emoji || s.locked) {
        kept := kept - {id};
      }
    }
  }

  /** `removeAt(indexOf(id))`. */
  method RemoveFirst(order: seq<SetId>, id: SetId) returns (less: seq<SetId>)
    ensures id !in order ==> less == order
    ensures id in order ==> exists i ::
      0 <= i < |order| && order[i] == id && id !in order[..i] && less == order[..i] + order[i + 1..]
  {
    for i := 0 to |order|
      invariant id !in order[..i]
    {
      if order[i] == id {
        return order[..i] + order[i + 1..];
      }
    }
    return order;
  }

  /** The settings of one kind of sets; the kinds have fields of their own in the client. */
  class StickerSaver {
    const kind: Kind
    var sets: Sets
    var order: seq<SetId>
    var recent: seq<Doc>
    var setDisenableRequests: set<int>
    var reorderRequestId: int
    var clearRecentRequestId: int
    var clearRecentAttachedRequestId: int
    var inflight: map<int, R.Request>
    var nextId: int
    var orders: seq<seq<SetId>>        // as the handlers of each save remember it
    ghost var sent: seq<R.Sent>
    ghost var uninstalls: seq<SetId>   // asked for by the last save
    ghost var installs: seq<SetId>

    ghost function Protocol(): R.State
      reads this
    {
      R.State(orders, setDisenableRequests, reorderRequestId, inflight, nextId, sent)
    }

    method SaveOrder(save: nat, localOrder: seq<SetId>)
      requires save < |orders| && localOrder == orders[save]
      modifies this`inflight, this`nextId, this`reorderRequestId, this`sent
      ensures Protocol() == R.SaveOrder(old(Protocol()), save)
    {
      if |localOrder| < 2 {
        return;
      }
      reorderRequestId := nextId;
      inflight := inflight[nextId := R.Reorder(save)];
      nextId := nextId + 1;
      sent := sent + [R.Sent(save, localOrder)];
    }

    /** An install or uninstall request is over, done or failed; its handler remembers the order of its save. */
    method StickerSetDisenabled(requestId: int, localOrder: seq<SetId>)
      requires R.RequestsKnown(Protocol()) && requestId in inflight && inflight[requestId].Toggle?
      requires localOrder == orders[inflight[requestId].save]
      modifies this`inflight, this`nextId, this`reorderRequestId, this`sent, this`setDisenableRequests
      ensures Protocol() == R.Step(old(Protocol()), R.Complete(requestId))
    {
      var save := inflight[requestId].save;
      inflight := inflight - {requestId};
      setDisenableRequests := setDisenableRequests - {requestId};
      if setDisenableRequests == {} {
        SaveOrder(save, localOrder);
      }
    }

    /** The reorder request is over. */
    method ReorderDone(requestId: int)
      requires R.RequestsKnown(Protocol()) && requestId in inflight && inflight[requestId].Reorder?
      modifies this`inflight, this`reorderRequestId
      ensures Protocol() == R.Step(old(Protocol()), R.Complete(requestId))
    {
      inflight := inflight - {requestId};
      reorderRequestId := 0;
    }

    /** The requests of the save under way: fresh ones, all of them noted, one for each set asked for. */
    ghost predicate Toggling(before: map<int, R.Request>, firstId: int)
      reads this`orders, this`nextId, this`setDisenableRequests, this`inflight, this`uninstalls, this`installs
    {
      && orders != [] && firstId <= nextId
      && (forall r :: r in setDisenableRequests ==> firstId <= r < nextId)
      && inflight == before + R.Toggles(setDisenableRequests, |orders| - 1)
      && |setDisenableRequests| == |uninstalls| + |installs|
    }

    /** Sends an install or uninstall request of the save that is under way. */
    method SendToggle(ghost setId: SetId, ghost install: bool, ghost before: map<int, R.Request>, ghost firstId: int)
      requires Toggling(before, firstId)
      modifies this`inflight, this`nextId, this`setDisenableRequests, this`uninstalls, this`installs
      ensures Toggling(before, firstId)
      ensures uninstalls == old(uninstalls) + (if install then [] else [setId])
      ensures installs == old(installs) + (if install then [setId] else [])
    {
      hide R.Toggles;
      OneMoreToggle(before, setDisenableRequests, nextId, |orders| - 1);
      inflight := inflight[nextId := R.Toggle(|orders| - 1)];
      setDisenableRequests := setDisenableRequests + {nextId};
      nextId := nextId + 1;
      if install {
        installs := installs + [setId];
      } else {
        uninstalls := uninstalls + [setId];
      }
    }

    /** A request that clears the recent stickers: not one of the toggles. */
    method SendClearRecent(ghost before: map<int, R.Request>, ghost firstId: int) returns (requestId: int)
      requires Toggling(before, firstId)
      modifies this`nextId
      ensures Toggling(before, firstId)
    {
      requestId := nextId;
      nextId := nextId + 1;
    }

    /** One turn of the removing loop. */
    method Remove(removedSetId: SetId, ghost before: map<int, R.Request>, ghost firstId: int)
      requires Toggling(before, firstId)
      modifies this`sets, this`recent, this`order, this`uninstalls, this`installs, this`inflight, this`nextId,
        this`setDisenableRequests, this`clearRecentRequestId, this`clearRecentAttachedRequestId
      ensures Toggling(before, firstId) && installs == old(installs)
      ensures Removal(sets, recent, uninstalls) == RemoveOne(old(Removal(sets, recent, uninstalls)), removedSetId)
    {
      hide Toggling, Forget;
      if removedSetId == CLOUD_RECENT || removedSetId == CLOUD_RECENT_ATTACHED {
        sets := sets - {CLOUD_RECENT} - {CLOUD_RECENT_ATTACHED} - {CUSTOM};
        if recent != [] {
          recent := [];
        }
        var requestId := SendClearRecent(before, firstId);
        if removedSetId == CLOUD_RECENT_ATTACHED {
          clearRecentAttachedRequestId := requestId;
        } else {
          clearRecentRequestId := requestId;
        }
        return;
      }
      if removedSetId !in sets {
        return;
      }
      var s := sets[removedSetId];
      recent := EraseStickers(recent, s.stickers);
      if !s.archived {
        SendToggle(removedSetId, false, before, firstId);
        order := RemoveFirst(order, removedSetId);
        if !s.featured && !s.special && !s.emoji && !s.locked {
          sets := sets - {removedSetId};
        } else {
          sets := sets[removedSetId := s.(installed := false, archived := false, installDate := 0)];
        }
      }
    }

    /** One turn of the loop over the new order. */
    method Place(setId: SetId, localRemoved: seq<SetId>, now: int, ghost before: map<int, R.Request>,
      ghost firstId: int)
      requires Toggling(before, firstId)
      modifies this`sets, this`order, this`uninstalls, this`installs, this`inflight, this`nextId,
        this`setDisenableRequests
      ensures Toggling(before, firstId) && uninstalls == old(uninstalls)
      ensures setId !in old(sets) ==> sets == old(sets) && order == old(order) && installs == old(installs)
      ensures setId in old(sets) ==> order == old(order) + [setId]
      ensures setId in old(sets) ==>
        sets == old(sets)[setId := Placed(old(sets)[setId], setId in localRemoved, now)]
      ensures setId in old(sets) ==>
        installs == old(installs) + (if old(sets)[setId].archived && setId !in localRemoved then [setId] else [])
    {
      hide Toggling;
      if setId !in sets {
        return;
      }
      var s := sets[setId];
      ghost var was := s;
      if s.archived && setId !in localRemoved {
        SendToggle(setId, true, before, firstId);
        s := s.(archived := false);
      }
      order := order + [setId];
      s := s.(installed := true);
      if s.installDate == 0 {
        s := s.(installDate := now);
      }
      assert s == Placed(was, setId in localRemoved, now);
      hide Placed;
      sets := sets[setId := s];
    }

    /** The loop over the new order. */
    method PlaceAll(localOrder: seq<SetId>, localRemoved: seq<SetId>, now: int,
      ghost before: map<int, R.Request>, ghost firstId: int)
      requires Toggling(before, firstId) && installs == []
      modifies this`sets, this`order, this`uninstalls, this`installs, this`inflight, this`nextId,
        this`setDisenableRequests
      ensures Toggling(before, firstId) && uninstalls == old(uninstalls)
      ensures sets == PlacedAll(old(sets), localOrder, localRemoved, now)
      ensures order == Known(localOrder, sets)
      ensures installs == Unarchived(old(sets), localOrder, localRemoved)
    {
      hide Toggling, Placed;
      order := [];
      ghost var base := sets;
      for i := 0 to |localOrder|
        invariant Toggling(before, firstId) && uninstalls == old(uninstalls)
        invariant sets == PlacedAll(base, localOrder[..i], localRemoved, now)
        invariant order == Known(localOrder[..i], base)
        invariant installs == Unarchived(base, localOrder[..i], localRemoved)
      {
        OneMorePlaced(base, localOrder, i, localRemoved, now);
        Place(localOrder[i], localRemoved, now, before, firstId);
      }
      assert localOrder[..|localOrder|] == localOrder;
      KnownSame(localOrder, base, sets);
    }

    method RemoveListed(localRemoved: seq<SetId>, ghost before: map<int, R.Request>, ghost firstId: int)
      requires Toggling(before, firstId) && installs == [] && uninstalls == []
      modifies this`sets, this`recent, this`order, this`uninstalls, this`installs, this`inflight, this`nextId,
        this`setDisenableRequests, this`clearRecentRequestId, this`clearRecentAttachedRequestId
      ensures Toggling(before, firstId) && installs == []
      ensures Removal(sets, recent, uninstalls) == RemoveAll(old(Removal(sets, recent, [])), localRemoved)
    {
      hide Toggling, RemoveOne;
      for i := 0 to |localRemoved|
        invariant Toggling(before, firstId) && installs == []
        invariant Removal(sets, recent, uninstalls) == RemoveAll(old(Removal(sets, recent, [])), localRemoved[..i])
      {
        assert localRemoved[..i + 1][..i] == localRemoved[..i];
        Remove(localRemoved[i], before, firstId);
      }
      assert localRemoved[..|localRemoved|] == localRemoved;
    }

    /** The requests of earlier saves are cancelled; a new save begins. */
    method CancelOld(localOrder: seq<SetId>)
      modifies this`inflight, this`setDisenableRequests, this`reorderRequestId, this`clearRecentRequestId,
        this`clearRecentAttachedRequestId, this`orders, this`uninstalls, this`installs
      ensures Toggling(R.Cancelled(old(Protocol())), nextId) && installs == [] && uninstalls == []
      ensures orders == old(orders) + [localOrder] && reorderRequestId == 0
    {
      inflight := inflight - setDisenableRequests - {reorderRequestId};
      setDisenableRequests := {};
      reorderRequestId := 0;
      clearRecentRequestId, clearRecentAttachedRequestId := 0, 0;
      orders := orders + [localOrder];
      uninstalls, installs := [], [];
      assert inflight + R.Toggles({}, |orders| - 1) == inflight;
    }

    /** The loops over the sets, one after the other. */
    method ChangeSets(localOrder: seq<SetId>, localRemoved: seq<SetId>, now: int,
      ghost before: map<int, R.Request>, ghost firstId: int)
      requires Toggling(before, firstId) && installs == [] && uninstalls == []
      modifies this`sets, this`recent, this`order, this`uninstalls, this`installs, this`inflight, this`nextId,
        this`setDisenableRequests, this`clearRecentRequestId, this`clearRecentAttachedRequestId
      ensures Toggling(before, firstId)
      ensures sets == Saved(old(sets), localOrder, localRemoved, kind, now)
      ensures order == Known(localOrder, sets)
      ensures Removal(Remaining(old(sets), localRemoved), recent, uninstalls)
        == RemoveAll(old(Removal(sets, recent, [])), localRemoved)
      ensures installs == Unarchived(Remaining(old(sets), localRemoved), localOrder, localRemoved)
    {
      hide Toggling, Saved, Known, RemoveAll, Unarchived, Remaining, PlacedAll, ClearedAll, WithReason;
      RemoveAllIsRemaining(sets, recent, localRemoved);
      RemoveListed(localRemoved, before, firstId);
      sets := ClearInstalled(sets, kind);
      PlaceAll(localOrder, localRemoved, now, before, firstId);
      sets := DropWithoutReason(sets);
      LoopsGiveSaved(old(sets), localOrder, localRemoved, kind, now);
      LoopsGiveOrder(old(sets), localOrder, localRemoved, kind, now);
    }

    method SaveStickerSets(localOrder: seq<SetId>, localRemoved: seq<SetId>, now: int)
      returns (ghost toggles: set<int>, ghost upTo: int)
      requires R.Inv(Protocol())
      modifies this
      ensures sets == Saved(old(sets), localOrder, localRemoved, kind, now)
      ensures order == Known(localOrder, sets)
      ensures Removal(Remaining(old(sets), localRemoved), recent, uninstalls)
        == RemoveAll(old(Removal(sets, recent, [])), localRemoved)
      ensures installs == Unarchived(Remaining(old(sets), localRemoved), localOrder, localRemoved)
      ensures |toggles| == |uninstalls| + |installs|
      ensures R.Enabled(old(Protocol()), R.Save(localOrder, toggles, upTo))
      ensures Protocol() == R.Step(old(Protocol()), R.Save(localOrder, toggles, upTo))
    {
      hide Saved, Known, RemoveAll, Unarchived, Remaining, R.Inv, R.RequestsKnown, R.SaveOrder, R.Cancelled, R.Toggles;
      InvKnows(Protocol());
      ghost var before, firstId := R.Cancelled(Protocol()), nextId;
      CancelOld(localOrder);
      ChangeSets(localOrder, localRemoved, now, before, firstId);
      toggles, upTo := setDisenableRequests, nextId;
      if setDisenableRequests == {} {
        SaveOrder(|orders| - 1, localOrder);
      }
    }
  }

  lemma LoopsGiveOrder(sets: Sets, order: seq<SetId>, removed: seq<SetId>, kind: Kind, now: int)
    ensures Known(order, PlacedAll(ClearedAll(Remaining(sets, removed), kind), order, removed, now))
         == Known(order, Saved(sets, order, removed, kind, now))
    ensures Unarchived(ClearedAll(Remaining(sets, removed), kind), order, removed)
         == Unarchived(Remaining(sets, removed), order, removed)
  {
    hide Saved, Known, Unarchived, Remaining, Cleared, Placed;
    var left := Remaining(sets, removed);
    KnownSame(order, left, PlacedAll(ClearedAll(left, kind), order, removed, now));
    OrderIsWhatSurvives(sets, order, order, removed, kind, now);
    UnarchivedSame(left, order, removed, kind);
  }

  lemma {:induction false} UnarchivedSame(sets: Sets, order: seq<SetId>, removed: seq<SetId>, kind: Kind)
    ensures Unarchived(ClearedAll(sets, kind), order, removed) == Unarchived(sets, order, removed)
    decreases |order|
  {
    if order != [] {
      UnarchivedSame(sets, order[..|order| - 1], removed, kind);
    }
  }

  lemma OneMoreToggle(before: map<int, R.Request>, ids: set<int>, id: int, save: nat)
    requires id !in ids
    ensures before + R.Toggles(ids + {id}, save) == (before + R.Toggles(ids, save))[id := R.Toggle(save)]
    ensures |ids + {id}| == |ids| + 1
  {
  }

  lemma InvKnows(s: R.State)
    requires R.Inv(s)
    ensures R.RequestsKnown(s)
  {
  }

  lemma OneMorePlaced(base: Sets, localOrder: seq<SetId>, i: nat, removed: seq<SetId>, now: int)
    requires i < |localOrder|
    ensures var id := localOrder[i];
      var sets := PlacedAll(base, localOrder[..i], removed, now);
      && (id in base <==> id in sets)
      && PlacedAll(base, localOrder[..i + 1], removed, now)
        == (if id in sets then sets[id := Placed(sets[id], id in removed, now)] else sets)
      && Known(localOrder[..i + 1], base) == Known(localOrder[..i], base) + (if id in sets then [id] else [])
      && Unarchived(base, localOrder[..i + 1], removed)
         == Unarchived(base, localOrder[..i], removed)
            + (if id in sets && sets[id].archived && id !in removed then [id] else [])
  {
    var id := localOrder[i];
    assert localOrder[..i + 1][..i] == localOrder[..i];
    assert forall other :: other in localOrder[..i + 1] <==> other in localOrder[..i] || other == id;
  }
}
