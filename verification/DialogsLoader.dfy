/** The loading machine as `ApiWrap` holds it, and the search for the next page's offset. */
module DialogsLoader {
  import opened Basics
  import opened DialogsLoad

  class Loader {
    var loads: map<List, Load>
    var listFlight: map<int, List>
    var pinnedFlight: map<int, List>
    var nextId: int
    var till: int
    var blockedByDate: bool
    var mayBlockByDate: bool
    ghost var failed: bool
    ghost var started: multiset<List>
    ghost var posted: multiset<List>
    var asked: seq<ListAsk>

    ghost function View(): State
      reads this
    {
      State(loads, listFlight, pinnedFlight, nextId, till, blockedByDate, mayBlockByDate, failed, started, posted,
        asked)
    }

    constructor ()
      ensures View() == START
    {
      loads, listFlight, pinnedFlight, nextId := map[Main := NEW_LOAD], map[], map[], 1;
      till, blockedByDate, mayBlockByDate := 0, false, false;
      failed, started, posted, asked := false, multiset{Main}, multiset{}, [];
    }

    method RequestDialogs(folder: List)
      modifies this
      ensures View() == DialogsRequested(old(View()), folder)
    {
      hide MoreRequested;
      if folder.Folder? && folder !in loads {
        loads := loads[folder := NEW_LOAD];
        started := started + multiset{folder};
      }
      RequestMoreDialogs(folder);
    }

    /** Sends the request for the next page of a list. */
    method SendListRequest(folder: List)
      requires folder in loads
      modifies this`loads, this`listFlight, this`nextId, this`asked
      ensures asked == old(asked) + [AskOf(old(View()), folder)]
      ensures listFlight == old(listFlight)[old(nextId) := folder] && nextId == old(nextId) + 1
      ensures loads == old(loads)[folder := old(loads)[folder].(requestId := old(nextId))]
    {
      var firstLoad := loads[folder].offset.date == 0;
      var loadCount := if firstLoad then FIRST_COUNT else PAGE_COUNT;
      asked := asked + [ListAsk(nextId, folder, loads[folder].offset, loadCount)];
      listFlight := listFlight[nextId := folder];
      loads := loads[folder := loads[folder].(requestId := nextId)];
      nextId := nextId + 1;
    }

    method RequestMoreDialogs(folder: List)
      modifies this
      ensures View() == MoreRequested(old(View()), folder)
    {
      hide PinnedRequested, Refreshed, AskOf;
      if folder !in loads {
        return;
      } else if loads[folder].requestId != 0 {
        return;
      } else if blockedByDate {
        return;
      }
      SendListRequest(folder);
      ghost var listAsked := View();
      if !loads[folder].pinnedReceived {
        RequestPinnedDialogs(folder);
      }
      assert View()
        == if listAsked.loads[folder].pinnedReceived then listAsked else PinnedRequested(listAsked, folder);
      if folder == Main {
        RefreshDialogsLoadBlocked();
      }
    }

    method RefreshDialogsLoadBlocked()
      modifies this`blockedByDate, this`mayBlockByDate
      ensures View() == Refreshed(old(View()))
    {
      mayBlockByDate := Main in loads && !loads[Main].listReceived && till > 0;
      blockedByDate := Main in loads && !loads[Main].listReceived && loads[Main].requestId == 0 && till > 0
        && loads[Main].offset.date > 0 && loads[Main].offset.date <= till;
    }

    /** The handler of the support-mode setting. */
    method SetTimeSlice(now: int, seconds: int)
      modifies this`till, this`blockedByDate, this`mayBlockByDate
      ensures View() == Step(old(View()), DialogsLoad.SetTimeSlice(now, seconds))
    {
      hide Refreshed, Received, MoreIfNeeded, DialogsRequested, MoreRequested, PinnedRequested, Finished;
      till := if seconds != 0 then Max(now - seconds, 0) else 0;
      RefreshDialogsLoadBlocked();
    }

    method RequestMoreBlockedByDateDialogs(now: int, max: int)
      modifies this
      ensures View() == Step(old(View()), RequestMoreBlocked(now, max))
    {
      hide Refreshed, Received, MoreIfNeeded, DialogsRequested, MoreRequested, PinnedRequested, Finished;
      if Main !in loads {
        return;
      }
      till := if loads[Main].offset.date != 0 then loads[Main].offset.date - max else now - max;
      RefreshDialogsLoadBlocked();
      RequestDialogs(Main);
    }

    method RequestPinnedDialogs(folder: List)
      modifies this
      ensures View() == PinnedRequested(old(View()), folder)
    {
      if folder !in loads || loads[folder].pinnedReceived || loads[folder].pinnedRequestId != 0 {
        return;
      }
      loads := loads[folder := loads[folder].(pinnedRequestId := nextId)];
      pinnedFlight := pinnedFlight[nextId := folder];
      nextId := nextId + 1;
    }

    method DialogsLoadFinish(folder: List)
      modifies this
      ensures View() == Finished(old(View()), folder)
    {
      if folder !in loads || !loads[folder].listReceived || !loads[folder].pinnedReceived {
        return;
      }
      loads := loads - {folder};
      posted := posted + multiset{folder};
    }

    method RequestMoreDialogsIfNeeded(elsewhere: Elsewhere)
      modifies this
      ensures View() == MoreIfNeeded(old(View()), elsewhere)
    {
      if elsewhere.exceptions {
        return;
      } else if Main in loads && !loads[Main].listReceived {
        if loads[Main].requestId != 0 {
          return;
        }
        RequestDialogs(Main);
      } else if elsewhere.archive.Some? {
        RequestMoreDialogs(elsewhere.archive.value);
      }
    }

    /** The done handler of the list request, the dialogs themselves left aside. */
    method GotDialogs(id: int, reply: Reply, elsewhere: Elsewhere)
      requires Enabled(View(), ListDone(id, reply, elsewhere))
      modifies this
      ensures View() == Step(old(View()), ListDone(id, reply, elsewhere))
    {
      hide Finished, Refreshed, MoreIfNeeded;
      var folder := listFlight[id];
      listFlight := listFlight - {id};
      match reply {
        case NotModified =>
        case Full =>
          if folder in loads {
            loads := loads[folder := loads[folder].(listReceived := true)];
            DialogsLoadFinish(folder);
          }
        case Slice(next) => UpdateDialogsOffset(folder, next);
      }
      if folder == Main && (Main !in loads || !loads[Main].listReceived) {
        RefreshDialogsLoadBlocked();
      }
      RequestMoreDialogsIfNeeded(elsewhere);
    }

    /** The second half of `updateDialogsOffset`. */
    method UpdateDialogsOffset(folder: List, next: Option<Offset>)
      modifies this
      ensures View() == Received(old(View()), folder, Slice(next))
    {
      hide Finished;
      if folder in loads {
        if next.Some? {
          loads := loads[folder := loads[folder].(offset := next.value, requestId := 0)];
        } else {
          loads := loads[folder := loads[folder].(listReceived := true)];
          DialogsLoadFinish(folder);
        }
      }
    }

    /** The fail handler takes the load for granted; the invariant is why it may. */
    method DialogsFailed(id: int)
      requires Core(View()) && id in listFlight
      modifies this
      ensures View() == Step(old(View()), ListFail(id))
    {
      CoreLanded(View(), id);
      var folder := listFlight[id];
      listFlight := listFlight - {id};
      loads := loads[folder := loads[folder].(requestId := 0)];
    }

    /** `finalize` of the pinned request, for done and fail alike. */
    method GotPinnedDialogs(id: int)
      requires id in pinnedFlight
      modifies this
      ensures View() == Step(old(View()), PinnedDone(id))
    {
      hide Finished;
      var folder := pinnedFlight[id];
      pinnedFlight := pinnedFlight - {id};
      if folder in loads {
        loads := loads[folder := loads[folder].(pinnedRequestId := 0, pinnedReceived := true)];
        DialogsLoadFinish(folder);
      }
    }
  }

  // ---------- the first half of `updateDialogsOffset` ----------

  datatype Dialog = Dialog(peer: int, top: int)
  datatype Message = Message(peer: int, id: int, date: int)

  predicate HasTop(d: Dialog) { d.peer != 0 && d.top != 0 }

  /** The date of the last message of the reply that is the dialog's top message, 0 without one. */
  function TopDate(messages: seq<Message>, d: Dialog): int {
    if messages == [] then 0
    else
      var last := messages[|messages| - 1];
      if last.id == d.top && last.peer == d.peer then last.date else TopDate(messages[..|messages| - 1], d)
  }

  ghost predicate IsLastTop(dialogs: seq<Dialog>, i: int) {
    0 <= i < |dialogs| && HasTop(dialogs[i]) && forall j :: i < j < |dialogs| ==> !HasTop(dialogs[j])
  }

  predicate IsDated(messages: seq<Message>, d: Dialog) { HasTop(d) && TopDate(messages, d) != 0 }

  ghost predicate IsLastDated(dialogs: seq<Dialog>, messages: seq<Message>, i: int) {
    0 <= i < |dialogs| && IsDated(messages, dialogs[i]) && forall j :: i < j < |dialogs| ==>
      !IsDated(messages, dialogs[j])
  }

  /** The page starts at the last dialog that has a top message, but its date is that of the last
      dialog whose top message came along with a date; the two need not be the same dialog. */
  method FindOffset(dialogs: seq<Dialog>, messages: seq<Message>) returns (next: Option<Offset>)
    ensures next.None? <==> forall d :: d in dialogs ==> !IsDated(messages, d)
    ensures next.Some? ==> exists i, j ::
      && IsLastDated(dialogs, messages, i) && IsLastTop(dialogs, j) && i <= j
      && next.value == Offset(TopDate(messages, dialogs[i]), dialogs[j].top, dialogs[j].peer)
  {
    var lastDate, lastPeer, lastMsgId := 0, 0, 0;
    ghost var last := -1;
    var i := |dialogs|;
    while i > 0 && lastDate == 0
      invariant 0 <= i <= |dialogs|
      invariant lastDate == 0 ==> forall k :: i <= k < |dialogs| ==> !IsDated(messages, dialogs[k])
      invariant lastDate != 0 ==>
        IsLastDated(dialogs, messages, i) && lastDate == TopDate(messages, dialogs[i]) && i <= last
      invariant last == -1 ==>
        lastPeer == 0 && lastMsgId == 0 && forall k :: i <= k < |dialogs| ==> !HasTop(dialogs[k])
      invariant last != -1 ==>
        i <= last && IsLastTop(dialogs, last) && lastPeer == dialogs[last].peer && lastMsgId == dialogs[last].top
    {
      i := i - 1;
      var d := dialogs[i];
      if d.peer == 0 || d.top == 0 {
        continue;
      }
      if lastPeer == 0 {
        lastPeer := d.peer;
        last := i;
      }
      if lastMsgId == 0 {
        lastMsgId := d.top;
      }
      lastDate := LastDate(messages, d);
    }
    if lastDate == 0 {
      return None;
    }
    return Some(Offset(lastDate, lastMsgId, lastPeer));
  }

  method LastDate(messages: seq<Message>, d: Dialog) returns (date: int)
    ensures date == TopDate(messages, d)
  {
    var i := |messages|;
    assert messages[..i] == messages;
    while i > 0
      invariant 0 <= i <= |messages|
      invariant TopDate(messages, d) == TopDate(messages[..i], d)
    {
      assert messages[..i][..i - 1] == messages[..i - 1];
      i := i - 1;
      if messages[i].id == d.top && messages[i].peer == d.peer {
        return messages[i].date;
      }
    }
    return 0;
  }
}
