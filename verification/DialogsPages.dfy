/** From where each page of a dialog list is asked for, over every run; and what the date limit holds back. */
module DialogsPages {
  import opened Basics
  import opened DialogsLoad

  // ---------- the offset that is due, from the events alone ----------

  /** The event brings a slice for this list, and from where its next page starts. */
  predicate BringsSlice(s: State, e: Event, list: List) {
    e.ListDone? && e.requestId in s.listFlight && s.listFlight[e.requestId] == list
    && e.reply.Slice? && e.reply.next.Some?
  }

  /** From where the next page of the list is to be asked for: the start for a new load, then the last slice's end. */
  function NextDue(s: State, e: Event, list: List, due: Offset): Offset {
    if list !in s.loads then Offset(0, 0, 0)
    else if BringsSlice(s, e, list) then e.reply.next.value
    else due
  }

  ghost function Due(s: State, es: seq<Event>, list: List, due: Offset): Offset
    requires IsRun(s, es)
    decreases |es|
  {
    if es == [] then due else Due(Step(s, es[0]), es[1..], list, NextDue(s, es[0], list, due))
  }

  ghost predicate LoadDue(s: State, list: List, due: Offset) {
    list in s.loads ==> s.loads[list].offset == due
  }

  /** How many dialogs a request from there asks for. */
  function CountFrom(offset: Offset): int { if offset.date == 0 then 20 else 500 }

  /** The requests sent on the way from s to t, for this list, ask from `due`; those for others say nothing here. */
  ghost predicate AsksFrom(s: State, t: State, list: List, due: Offset) {
    && s.asked <= t.asked
    && forall i :: |s.asked| <= i < |t.asked| && t.asked[i].list == list ==>
      t.asked[i].offset == due && t.asked[i].count == CountFrom(due)
  }

  /** On the way from s to t requests for this list are sent from `due` only, and its offset stays. */
  ghost predicate Goes(s: State, t: State, list: List, due: Offset) {
    LoadDue(s, list, due) ==> LoadDue(t, list, due) && AsksFrom(s, t, list, due)
  }

  lemma GoesOn(s: State, t: State, u: State, list: List, due: Offset)
    requires Goes(s, t, list, due) && Goes(t, u, list, due)
    ensures Goes(s, u, list, due)
  {
  }

  lemma PinnedGoes(s: State, l: List, list: List, due: Offset)
    ensures Goes(s, PinnedRequested(s, l), list, due)
  {
  }

  lemma RefreshGoes(s: State, list: List, due: Offset)
    ensures Goes(s, Refreshed(s), list, due) && Goes(Refreshed(s), s, list, due)
  {
  }

  lemma SentGoes(s: State, l: List, list: List, due: Offset)
    requires l in s.loads
    ensures Goes(s, Sent(s, l), list, due)
  {
  }

  lemma MoreGoes(s: State, l: List, list: List, due: Offset)
    ensures Goes(s, MoreRequested(s, l), list, due)
  {
    hide Goes, MoreRequested, Sent, Refreshed;
    MoreForm(s, l);
    if l in s.loads {
      SentGoes(s, l, list, due);
      RefreshGoes(Sent(s, l), list, due);
      GoesOn(s, Sent(s, l), Refreshed(Sent(s, l)), list, due);
    }
    StaysGoes(s, list, due);
  }

  lemma StaysGoes(s: State, list: List, due: Offset)
    ensures Goes(s, s, list, due)
  {
  }

  /** A load that is started is due from the start. */
  lemma DialogsGo(s: State, l: List, list: List, due: Offset)
    requires list in s.loads || due == FROM_START
    ensures Goes(s, DialogsRequested(s, l), list, due)
  {
    if l.Folder? && l !in s.loads {
      var t := s.(loads := s.loads[l := NEW_LOAD], started := s.started + multiset{l});
      assert Goes(s, t, list, due);
      MoreGoes(t, l, list, due);
      GoesOn(s, t, MoreRequested(t, l), list, due);
    } else {
      MoreGoes(s, l, list, due);
    }
    hide MoreRequested, Goes;
  }

  lemma FinishedDue(s: State, l: List, list: List, due: Offset)
    requires LoadDue(s, list, due)
    ensures var t := Finished(s, l);
      t.asked == s.asked && (list in t.loads ==> list in s.loads) && LoadDue(t, list, due)
  {
  }

  lemma ReceivedDue(s: State, l: List, reply: Reply, list: List, due: Offset)
    requires LoadDue(s, list, due)
    ensures var t := Received(s, l, reply);
      && t.asked == s.asked
      && LoadDue(t, list, if l == list && reply.Slice? && reply.next.Some? then reply.next.value else due)
  {
    hide Finished;
    if l in s.loads {
      var t := s.(loads := s.loads[l := s.loads[l].(listReceived := true)]);
      FinishedDue(t, l, list, due);
    }
  }

  lemma SameAsked(s: State, u: State, v: State, list: List, due: Offset)
    requires u.asked == s.asked && LoadDue(u, list, due) && Goes(u, v, list, due)
    ensures LoadDue(v, list, due) && AsksFrom(s, v, list, due)
  {
  }

  lemma ListDoneDue(s: State, e: Event, list: List, due: Offset)
    requires Core(s) && e.ListDone? && Enabled(s, e) && LoadDue(s, list, due)
    ensures LoadDue(Step(s, e), list, NextDue(s, e, list, due))
    ensures AsksFrom(s, Step(s, e), list, NextDue(s, e, list, due))
  {
    CoreLanded(s, e.requestId);
    var l, t := s.listFlight[e.requestId], s.(listFlight := s.listFlight - {e.requestId});
    var u := Received(t, l, e.reply);
    var next := if l == list && e.reply.Slice? && e.reply.next.Some? then e.reply.next.value else due;
    ReceivedDue(t, l, e.reply, list, due);
    var right := NextDue(s, e, list, due);
    assert LoadDue(u, list, right) by {
      NoLoadAppears(t, l, e.reply, list);
    }
    hide Received, Refreshed, MoreIfNeeded, Core, LoadDue, AsksFrom, Goes, NextDue;
    RefreshGoes(u, list, right);
    AnyIfNeededGoes(u, e.elsewhere, list, right);
    AnyIfNeededGoes(Refreshed(u), e.elsewhere, list, right);
    GoesOn(u, Refreshed(u), MoreIfNeeded(Refreshed(u), e.elsewhere), list, right);
    SameAsked(s, u, Step(s, e), list, right);
  }

  lemma NoLoadAppears(s: State, l: List, reply: Reply, list: List)
    ensures list in Received(s, l, reply).loads ==> list in s.loads
  {
    hide Finished;
    if l in s.loads {
      var t := s.(loads := s.loads[l := s.loads[l].(listReceived := true)]);
      assert list in Finished(t, l).loads ==> list in t.loads by { FinishedKeeps(t, l, list); }
    }
  }

  lemma FinishedKeeps(s: State, l: List, list: List)
    ensures list in Finished(s, l).loads ==> list in s.loads
  {
  }

  /** The requests that follow a reply start no load, so a list without one is not asked for. */
  lemma AnyIfNeededGoes(s: State, e: Elsewhere, list: List, due: Offset)
    ensures Goes(s, MoreIfNeeded(s, e), list, due)
  {
    hide Goes, MoreRequested, Refreshed;
    StaysGoes(s, list, due);
    if Main in s.loads {
      MoreGoes(s, Main, list, due);
    }
    if e.archive.Some? {
      MoreGoes(s, e.archive.value, list, due);
    }
  }

  lemma LimitGoes(s: State, till: int, list: List, due: Offset)
    ensures Goes(s, s.(till := till), list, due)
  {
  }

  lemma ListFailGoes(s: State, id: int, list: List, due: Offset)
    requires id in s.listFlight
    ensures Goes(s, Step(s, ListFail(id)), list, due)
  {
  }

  lemma PinnedDoneGoes(s: State, id: int, list: List, due: Offset)
    requires id in s.pinnedFlight
    ensures Goes(s, Step(s, PinnedDone(id)), list, due)
  {
    hide Finished;
    var l := s.pinnedFlight[id];
    var t := s.(pinnedFlight := s.pinnedFlight - {id});
    if l in s.loads && LoadDue(s, list, due) {
      FinishedDue(t.(loads := t.loads[l := t.loads[l].(pinnedRequestId := 0, pinnedReceived := true)]), l, list, due);
    }
  }

  lemma LimitMovesGoes(s: State, e: Event, list: List, due: Offset)
    requires e.RequestMoreBlocked? || e.SetTimeSlice?
    ensures Goes(s, Step(s, e), list, due)
  {
    hide Goes, Refreshed, MoreRequested;
    StaysGoes(s, list, due);
    var till := if e.SetTimeSlice? then (if e.seconds != 0 then Max(e.now - e.seconds, 0) else 0)
                else if Main !in s.loads then 0
                else if s.loads[Main].offset.date != 0 then s.loads[Main].offset.date - e.max else e.now - e.max;
    var t := s.(till := till);
    LimitGoes(s, till, list, due);
    RefreshGoes(t, list, due);
    GoesOn(s, t, Refreshed(t), list, due);
    if e.RequestMoreBlocked? {
      MoreGoes(Refreshed(t), Main, list, due);
      GoesOn(s, Refreshed(t), MoreRequested(Refreshed(t), Main), list, due);
    }
  }

  /** Each step keeps the offset that is due, and every request it sends asks from there. */
  lemma StepKeepsDue(s: State, e: Event, list: List, due: Offset)
    requires Core(s) && Enabled(s, e) && LoadDue(s, list, due)
    ensures LoadDue(Step(s, e), list, NextDue(s, e, list, due))
    ensures AsksFrom(s, Step(s, e), list, NextDue(s, e, list, due))
  {
    var next := NextDue(s, e, list, due);
    assert e.ListDone? || LoadDue(s, list, next);
    match e {
      case RequestDialogs(l) => DialogsGo(s, l, list, next);
      case RequestMore(l) => MoreGoes(s, l, list, next);
      case RequestPinned(l) => PinnedGoes(s, l, list, next);
      case RequestMoreBlocked(_, _) => LimitMovesGoes(s, e, list, next);
      case SetTimeSlice(_, _) => LimitMovesGoes(s, e, list, next);
      case ListDone(_, _, _) => ListDoneDue(s, e, list, due);
      case ListFail(id) => ListFailGoes(s, id, list, next);
      case PinnedDone(id) => PinnedDoneGoes(s, id, list, next);
    }
    hide Core, Refreshed, MoreRequested, DialogsRequested, PinnedRequested, Received, MoreIfNeeded, Finished, LoadDue,
      AsksFrom;
  }

  lemma {:induction false} RunKeepsDue(s: State, es: seq<Event>, list: List, due: Offset)
    requires Core(s) && IsRun(s, es) && LoadDue(s, list, due)
    ensures Core(After(s, es)) && LoadDue(After(s, es), list, Due(s, es, list, due))
    decreases |es|
  {
    hide Core, Step, Enabled, LoadDue, NextDue;
    if es != [] {
      StepKeepsDue(s, es[0], list, due);
      StepKeepsCore(s, es[0]);
      RunKeepsDue(Step(s, es[0]), es[1..], list, NextDue(s, es[0], list, due));
    }
  }

  /**
   * Over every run: each list request asks from the end of the last slice that came for its load, or from the
   * start when none has; a reply's own slice counts for the requests that follow it at once.
   */
  lemma EachPageFollowsTheLast(es: seq<Event>, e: Event, list: List)
    requires IsRun(START, es) && Enabled(After(START, es), e)
    ensures var s := After(START, es);
      AsksFrom(s, Step(s, e), list, NextDue(s, e, list, Due(START, es, list, Offset(0, 0, 0))))
  {
    StartInv();
    RunKeepsDue(START, es, list, FROM_START);
    hide Core, Step, AsksFrom, NextDue;
    StepKeepsDue(After(START, es), e, list, Due(START, es, list, FROM_START));
  }

  /** No slice comes for the list in this run. */
  ghost predicate NoSlices(s: State, es: seq<Event>, list: List)
    requires IsRun(s, es)
    decreases |es|
  {
    es == [] || (!BringsSlice(s, es[0], list) && NoSlices(Step(s, es[0]), es[1..], list))
  }

  /** Until the first slice of a list it is asked for from the start. */
  lemma {:induction false} FirstPageFromStart(s: State, es: seq<Event>, list: List)
    requires IsRun(s, es) && NoSlices(s, es, list)
    ensures Due(s, es, list, Offset(0, 0, 0)) == Offset(0, 0, 0)
    decreases |es|
  {
    hide Step, Enabled, BringsSlice;
    if es != [] {
      FirstPageFromStart(Step(s, es[0]), es[1..], list);
    }
  }

  // ---------- a failed request is asked again ----------

  /** After a failure the next request for the list is the failed one again, under a new id, unless held back. */
  lemma FailedAsksAgainFromThere(s: State, id: int)
    requires Core(s) && id in s.listFlight
    ensures var list, t := s.listFlight[id], Step(s, ListFail(id));
      && list in t.loads && t.loads[list].offset == s.loads[list].offset && t.asked == s.asked
      && MoreRequested(t, list).asked == t.asked + if s.blocked then []
           else [ListAsk(t.nextId, list, s.loads[list].offset, CountFrom(s.loads[list].offset))]
  {
    CoreLanded(s, id);
    var list, t := s.listFlight[id], Step(s, ListFail(id));
    MoreForm(t, list);
    assert t.asked + [] == t.asked;
    hide MoreRequested, Core;
  }

  // ---------- the date limit ----------

  /** A slice of the main list holds loading back exactly when its date is at or below the limit. */
  lemma SliceReachesLimit(s: State, e: Event)
    requires Core(s) && Enabled(s, e) && BringsSlice(s, e, Main)
    ensures Step(s, e).blocked <==> 0 < e.reply.next.value.date <= s.till
    ensures Step(s, e).blocked ==> Step(s, e).asked == s.asked
  {
    CoreLanded(s, e.requestId);
    var t := s.(listFlight := s.listFlight - {e.requestId});
    var u := Received(t, Main, e.reply);
    assert u.loads[Main] == t.loads[Main].(offset := e.reply.next.value, requestId := 0);
    hide Core, Received;
    AskedOrBlocked(Refreshed(u), e.elsewhere);
    hide MoreIfNeeded;
  }

  lemma AskedOrBlocked(s: State, e: Elsewhere)
    requires Main in s.loads && !s.loads[Main].listReceived && s.loads[Main].requestId == 0 && s.nextId > 0
    ensures MoreIfNeeded(s, e).blocked == s.blocked
    ensures s.blocked ==> MoreIfNeeded(s, e) == s
  {
    hide Sent, MoreRequested;
    MoreForm(s, Main);
    if !s.blocked {
      SentForm(s, Main);
      assert Sent(s, Main).loads[Main].requestId == s.nextId by { SentRequestId(s); }
    }
  }

  lemma SentRequestId(s: State)
    requires Main in s.loads
    ensures Main in Sent(s, Main).loads && Sent(s, Main).loads[Main].requestId == s.nextId
  {
  }

  predicate MovesLimit(e: Event) { e.SetTimeSlice? || e.RequestMoreBlocked? }

  lemma StaysBlocked(s: State, e: Event)
    requires Core(s) && s.blocked && Enabled(s, e) && !MovesLimit(e)
    ensures Step(s, e).blocked && Step(s, e).asked == s.asked
  {
    if e.ListDone? {
      CoreLanded(s, e.requestId);
    }
  }

  /** Held back, no list is asked for any page, whatever happens, until the limit is moved. */
  lemma {:induction false} NothingAskedUntilLimitMoves(s: State, es: seq<Event>)
    requires Core(s) && s.blocked && IsRun(s, es) && forall i :: 0 <= i < |es| ==> !MovesLimit(es[i])
    ensures After(s, es).blocked && After(s, es).asked == s.asked
    decreases |es|
  {
    hide Core, Step, Enabled, MovesLimit;
    if es != [] {
      StaysBlocked(s, es[0]);
      StepKeepsCore(s, es[0]);
      NothingAskedUntilLimitMoves(Step(s, es[0]), es[1..]);
    }
  }

  // ---------- what is asked for next ----------

  /** The request for the next page of a list, if one may be sent. */
  function AskIfFree(s: State, list: List): seq<ListAsk> {
    if list in s.loads && s.loads[list].requestId == 0 && !s.blocked
    then [ListAsk(s.nextId, list, s.loads[list].offset, CountFrom(s.loads[list].offset))] else []
  }

  lemma MoreAsksOnce(s: State, list: List)
    ensures MoreRequested(s, list).asked == s.asked + AskIfFree(s, list)
  {
    MoreForm(s, list);
    assert s.asked + [] == s.asked;
    hide MoreRequested;
  }

  /**
   * After a reply nothing is asked for while filter exceptions are loaded; the main list goes first, and the archive
   * is asked for only when the main list is done.
   */
  lemma NextAsksAre(s: State, e: Elsewhere)
    ensures MoreIfNeeded(s, e).asked == s.asked +
      if e.exceptions then []
      else if Main in s.loads && !s.loads[Main].listReceived then AskIfFree(s, Main)
      else if e.archive.Some? then AskIfFree(s, e.archive.value) else []
    ensures e.exceptions ==> MoreIfNeeded(s, e) == s
  {
    assert s.asked + [] == s.asked;
    MoreAsksOnce(s, Main);
    if e.archive.Some? {
      MoreAsksOnce(s, e.archive.value);
    }
    hide MoreRequested;
  }

  /** The pinned half of a load is asked for once, until it arrives. */
  lemma PinnedIsAskedOnce(s: State, list: List)
    ensures var t := PinnedRequested(s, list);
      if list in s.loads && !s.loads[list].pinnedReceived && s.loads[list].pinnedRequestId == 0 then
        && t.pinnedFlight == s.pinnedFlight[s.nextId := list] && t.nextId == s.nextId + 1
        && t.loads == s.loads[list := s.loads[list].(pinnedRequestId := s.nextId)]
      else t == s
    ensures Step(s, RequestPinned(list)) == PinnedRequested(s, list)
  {
  }

  /** Loading may be held back while the main list loads under a limit, and is when it has reached it between pages. */
  lemma FlagsAre(s: State)
    ensures var t, loading := Refreshed(s), Main in s.loads && !s.loads[Main].listReceived && s.till > 0;
      && (t.mayBlock <==> loading)
      && (t.blocked <==> loading && s.loads[Main].requestId == 0 && 0 < s.loads[Main].offset.date <= s.till)
      && t == s.(mayBlock := t.mayBlock, blocked := t.blocked)
  {
  }
}
