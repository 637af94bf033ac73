/** Which loads can still finish. */
module DialogsFinish {
  import opened Basics
  import opened DialogsLoad

  /** The list request was answered, but without a list, and its id still marks it as requested. */
  ghost predicate Stuck(s: State, list: List) {
    && list in s.loads && s.loads[list].requestId != 0 && s.loads[list].requestId !in s.listFlight
    && !s.loads[list].listReceived
  }

  /** A reply that says "not modified" makes the load stuck. */
  lemma NotModifiedSticks(s: State, id: int, elsewhere: Elsewhere)
    requires Core(s) && id in s.listFlight
    ensures var e := ListDone(id, NotModified, elsewhere);
      Enabled(s, e) && Stuck(Step(s, e), s.listFlight[id])
  {
    var l := s.listFlight[id];
    var t := s.(listFlight := s.listFlight - {id});
    CoreLanded(s, id);
    assert Stuck(t, l);
    hide Core, Stuck, MoreIfNeeded, Refreshed;
    StuckRefresh(t, l);
    CoreReceived(s, id, NotModified);
    CoreUnblock(t);
    CoreRefresh(t);
    StuckIfNeeded(t, elsewhere, l);
    StuckIfNeeded(Refreshed(t), elsewhere, l);
  }

  lemma StuckMore(s: State, list: List, l: List)
    requires Core(s) && Stuck(s, l)
    ensures Stuck(MoreRequested(s, list), l) && Stuck(DialogsRequested(s, list), l)
  {
    assert LoadOk(s, l);
    if list.Folder? && list !in s.loads {
      var t := s.(loads := s.loads[list := NEW_LOAD], started := s.started + multiset{list});
      StuckSent(t, list, l);
    } else {
      StuckSent(s, list, l);
    }
    if list in s.loads {
      StuckSent(s, list, l);
    }
  }

  lemma StuckSentTwo(s: State, list: List, l: List)
    requires Stuck(s, l) && s.loads[l].requestId < s.nextId
    requires list in s.loads && s.loads[list].requestId == 0
    ensures Stuck(Sent(s, list), l)
  {
    assert list != l;
  }

  lemma StuckSent(s: State, list: List, l: List)
    requires Stuck(s, l) && s.loads[l].requestId < s.nextId
    ensures Stuck(MoreRequested(s, list), l)
  {
    hide MoreRequested, Refreshed, Sent, Stuck;
    MoreForm(s, list);
    if list in s.loads && s.loads[list].requestId == 0 && !s.blocked {
      StuckSentTwo(s, list, l);
      StuckRefresh(Sent(s, list), l);
    }
  }

  lemma StuckRefresh(s: State, l: List)
    requires Stuck(s, l)
    ensures Stuck(Refreshed(s), l)
  {
  }

  lemma StuckIfNeeded(s: State, e: Elsewhere, l: List)
    requires Core(s) && Stuck(s, l)
    ensures Stuck(MoreIfNeeded(s, e), l)
  {
    hide Core, Stuck, MoreRequested, DialogsRequested;
    StuckMore(s, Main, l);
    if e.archive.Some? {
      StuckMore(s, e.archive.value, l);
    }
  }

  lemma FinishedLeaves(t: State, list: List, l: List)
    requires list != l
    ensures var u := Finished(t, list);
      && u.listFlight == t.listFlight && (l in u.loads <==> l in t.loads)
      && (l in t.loads ==> u.loads[l] == t.loads[l])
  {
  }

  /** A list reply leaves every other load alone. */
  lemma ReceivedLeaves(t: State, list: List, reply: Reply, l: List)
    requires list != l
    ensures var u := Received(t, list, reply);
      && u.listFlight == t.listFlight && (l in u.loads <==> l in t.loads)
      && (l in t.loads ==> u.loads[l] == t.loads[l])
  {
    hide Finished;
    if list in t.loads {
      FinishedLeaves(t.(loads := t.loads[list := t.loads[list].(listReceived := true)]), list, l);
    }
  }

  lemma StuckReceived(s: State, id: int, reply: Reply, l: List)
    requires Core(s) && id in s.listFlight && Stuck(s, l)
    ensures Stuck(Received(s.(listFlight := s.listFlight - {id}), s.listFlight[id], reply), l)
  {
    CoreLanded(s, id);
    assert s.listFlight[id] != l;
    ReceivedLeaves(s.(listFlight := s.listFlight - {id}), s.listFlight[id], reply, l);
    hide Core, Received;
  }

  lemma StuckPinned(s: State, id: int, l: List)
    requires Core(s) && id in s.pinnedFlight && Stuck(s, l)
    ensures Stuck(Step(s, PinnedDone(id)), l)
  {
  }

  lemma StuckStays(s: State, e: Event, l: List)
    requires Core(s) && Enabled(s, e) && Stuck(s, l)
    ensures Stuck(Step(s, e), l)
  {
    match e {
      case RequestDialogs(list) => StuckMore(s, list, l);
      case RequestMore(list) => StuckMore(s, list, l);
      case RequestPinned(list) =>
      case RequestMoreBlocked(now, max) => StuckMoreBlocked(s, now, max, l);
      case SetTimeSlice(now, seconds) =>
        StuckTimeSlice(s, if seconds != 0 then Max(now - seconds, 0) else 0, l);
      case ListDone(id, reply, elsewhere) => StuckListDone(s, id, reply, elsewhere, l);
      case ListFail(id) => CoreLanded(s, id);
      case PinnedDone(id) => StuckPinned(s, id, l);
    }
  }

  lemma StuckTimeSlice(s: State, till: int, l: List)
    requires Stuck(s, l)
    ensures Stuck(Refreshed(s.(till := till)), l)
  {
  }

  lemma StuckMoreBlocked(s: State, now: int, max: int, l: List)
    requires Core(s) && Stuck(s, l)
    ensures Stuck(Step(s, RequestMoreBlocked(now, max)), l)
  {
    hide Core, Stuck, Refreshed, DialogsRequested;
    if Main in s.loads {
      var date := s.loads[Main].offset.date;
      var till := if date != 0 then date - max else now - max;
      CoreTimeSlice(s, till);
      StuckTimeSlice(s, till, l);
      StuckMore(Refreshed(s.(till := till)), Main, l);
    }
  }

  lemma StuckListDone(s: State, id: int, reply: Reply, e: Elsewhere, l: List)
    requires Core(s) && Enabled(s, ListDone(id, reply, e)) && Stuck(s, l)
    ensures Stuck(Step(s, ListDone(id, reply, e)), l)
  {
    var t := Received(s.(listFlight := s.listFlight - {id}), s.listFlight[id], reply);
    CoreReceived(s, id, reply);
    CoreUnblock(t);
    StuckReceived(s, id, reply, l);
    hide Core, Stuck, Received, Refreshed, MoreIfNeeded;
    CoreRefresh(t);
    StuckRefresh(t, l);
    StuckIfNeeded(t, e, l);
    StuckIfNeeded(Refreshed(t), e, l);
  }

  // ---------- nothing else makes a load stuck ----------

  lemma FreeSent(s: State, list: List, l: List)
    requires Core(s) && !Stuck(s, l)
    ensures !Stuck(MoreRequested(s, list), l)
  {
    hide MoreRequested, Refreshed;
    MoreForm(s, list);
    if list in s.loads && s.loads[list].requestId == 0 && !s.blocked {
      assert !Stuck(Sent(s, list), l);
      FreeRefresh(Sent(s, list), l);
    }
  }

  lemma FreeRefresh(s: State, l: List)
    requires !Stuck(s, l)
    ensures !Stuck(Refreshed(s), l)
  {
  }

  lemma FreeMore(s: State, list: List, l: List)
    requires Core(s) && !Stuck(s, l)
    ensures !Stuck(DialogsRequested(s, list), l)
  {
    if list.Folder? && list !in s.loads {
      var t := s.(loads := s.loads[list := NEW_LOAD], started := s.started + multiset{list});
      assert Core(t);
      assert !Stuck(t, l);
      FreeSent(t, list, l);
    } else {
      FreeSent(s, list, l);
    }
    hide MoreRequested, Core, Stuck;
  }

  lemma FreeIfNeeded(s: State, e: Elsewhere, l: List)
    requires Core(s) && !Stuck(s, l)
    ensures !Stuck(MoreIfNeeded(s, e), l)
  {
    hide Core, Stuck, MoreRequested, DialogsRequested;
    FreeMore(s, Main, l);
    if e.archive.Some? {
      FreeSent(s, e.archive.value, l);
    }
  }

  lemma FreeReceived(s: State, id: int, reply: Reply, l: List)
    requires Core(s) && id in s.listFlight && !Stuck(s, l)
    requires !(reply.NotModified? && s.listFlight[id] == l)
    ensures !Stuck(Received(s.(listFlight := s.listFlight - {id}), s.listFlight[id], reply), l)
  {
    hide Finished;
    CoreLanded(s, id);
    var list := s.listFlight[id];
    var t := s.(listFlight := s.listFlight - {id});
    if list == l {
      OwnReceived(t, l, reply);
    } else {
      FreeOther(s, id, l);
      OtherReceived(t, list, reply, l);
    }
  }

  /** The flight of another load's request is over. */
  lemma FreeOther(s: State, id: int, l: List)
    requires Core(s) && id in s.listFlight && s.listFlight[id] != l && !Stuck(s, l)
    ensures !Stuck(s.(listFlight := s.listFlight - {id}), l)
  {
    if l in s.loads {
      assert LoadOk(s, l);
    }
  }

  lemma OwnReceived(t: State, l: List, reply: Reply)
    requires !reply.NotModified?
    ensures !Stuck(Received(t, l, reply), l)
  {
  }

  lemma OtherReceived(t: State, list: List, reply: Reply, l: List)
    requires list != l && !Stuck(t, l)
    ensures !Stuck(Received(t, list, reply), l)
  {
    hide Received;
    ReceivedLeaves(t, list, reply, l);
  }

  lemma FreeListDone(s: State, id: int, reply: Reply, e: Elsewhere, l: List)
    requires Core(s) && Enabled(s, ListDone(id, reply, e)) && !Stuck(s, l)
    requires !(reply.NotModified? && s.listFlight[id] == l)
    ensures !Stuck(Step(s, ListDone(id, reply, e)), l)
  {
    var t := Received(s.(listFlight := s.listFlight - {id}), s.listFlight[id], reply);
    CoreReceived(s, id, reply);
    CoreUnblock(t);
    FreeReceived(s, id, reply, l);
    hide Core, Stuck, Received, Refreshed, MoreIfNeeded;
    CoreRefresh(t);
    FreeRefresh(t, l);
    FreeIfNeeded(t, e, l);
    FreeIfNeeded(Refreshed(t), e, l);
  }

  lemma FreeTimeSlice(s: State, till: int, l: List)
    requires !Stuck(s, l)
    ensures !Stuck(Refreshed(s.(till := till)), l)
  {
  }

  lemma FreeMoreBlocked(s: State, now: int, max: int, l: List)
    requires Core(s) && !Stuck(s, l)
    ensures !Stuck(Step(s, RequestMoreBlocked(now, max)), l)
  {
    hide Core, Stuck, Refreshed, DialogsRequested;
    if Main in s.loads {
      var date := s.loads[Main].offset.date;
      var till := if date != 0 then date - max else now - max;
      CoreTimeSlice(s, till);
      FreeTimeSlice(s, till, l);
      FreeMore(Refreshed(s.(till := till)), Main, l);
    }
  }

  lemma FreeLanded(s: State, e: Event, l: List)
    requires Core(s) && Enabled(s, e) && !Stuck(s, l) && (e.ListFail? || e.PinnedDone? || e.RequestPinned?)
    ensures !Stuck(Step(s, e), l)
  {
    if e.ListFail? {
      CoreLanded(s, e.requestId);
      if l in s.loads {
        assert LoadOk(s, l);
      }
    }
  }

  /** A load that is not stuck becomes stuck exactly by a not-modified reply to its own list request. */
  lemma SticksExactlyByNotModified(s: State, e: Event, l: List)
    requires Core(s) && Enabled(s, e) && !Stuck(s, l)
    ensures Stuck(Step(s, e), l) <==> e.ListDone? && e.reply.NotModified? && s.listFlight[e.requestId] == l
  {
    hide Core, Stuck, MoreRequested, DialogsRequested, Refreshed, MoreIfNeeded, Received, PinnedRequested, Finished;
    match e {
      case RequestDialogs(list) => FreeMore(s, list, l);
      case RequestMore(list) => FreeSent(s, list, l);
      case RequestPinned(_) => FreeLanded(s, e, l);
      case RequestMoreBlocked(now, max) => FreeMoreBlocked(s, now, max, l);
      case SetTimeSlice(now, seconds) => FreeTimeSlice(s, if seconds != 0 then Max(now - seconds, 0) else 0, l);
      case ListDone(id, reply, elsewhere) =>
        if reply.NotModified? && s.listFlight[id] == l {
          NotModifiedSticks(s, id, elsewhere);
        } else {
          FreeListDone(s, id, reply, elsewhere, l);
        }
      case ListFail(_) => FreeLanded(s, e, l);
      case PinnedDone(_) => FreeLanded(s, e, l);
    }
  }

  /** Nothing that can happen brings a stuck load further: it is never announced. */
  lemma {:induction false} StuckForever(s: State, es: seq<Event>, l: List)
    requires Core(s) && Stuck(s, l) && IsRun(s, es)
    ensures Stuck(After(s, es), l) && After(s, es).posted[l] == s.posted[l]
    decreases |es|
  {
    hide Step, Enabled, Core, Stuck;
    if es != [] {
      StuckStays(s, es[0], l);
      StuckNotPosted(s, es[0], l);
      StepKeepsCore(s, es[0]);
      StuckForever(Step(s, es[0]), es[1..], l);
    }
  }

  lemma StuckNotPosted(s: State, e: Event, l: List)
    requires Core(s) && Enabled(s, e) && Stuck(s, l)
    ensures Step(s, e).posted[l] == s.posted[l]
  {
    AnnouncedWhenComplete(s, e, l);
    if e.ListDone? {
      CoreLanded(s, e.requestId);
    }
    hide Step;
  }

  // ---------- every other load can ----------

  ghost predicate CanFinish(s: State, l: List) {
    exists es :: IsRun(s, es) && After(s, es).posted[l] > s.posted[l]
  }

  lemma FinishAfter(s: State, e: Event, l: List)
    requires Enabled(s, e) && CanFinish(Step(s, e), l) && Step(s, e).posted[l] == s.posted[l]
    ensures CanFinish(s, l)
  {
    hide Step, Enabled;
    var es :| IsRun(Step(s, e), es) && After(Step(s, e), es).posted[l] > Step(s, e).posted[l];
    assert ([e] + es)[1..] == es;
    assert IsRun(s, [e] + es);
  }

  lemma FinishNow(s: State, e: Event, l: List)
    requires Enabled(s, e) && Step(s, e).posted[l] > s.posted[l]
    ensures CanFinish(s, l)
  {
    hide Step, Enabled;
    assert [e][1..] == [];
    assert IsRun(s, [e]);
    assert After(s, [e]) == Step(s, e);
  }

  /** With its list there, only the pinned half is missing, and it is on its way. */
  lemma FinishPinned(s: State, l: List)
    requires Core(s) && l in s.loads && s.loads[l].listReceived
    ensures CanFinish(s, l)
  {
    assert LoadOk(s, l);
    var e := PinnedDone(s.loads[l].pinnedRequestId);
    AnnouncedWhenComplete(s, e, l);
    FinishNow(s, e, l);
  }

  lemma FinishList(s: State, l: List)
    requires Core(s) && l in s.loads && s.loads[l].requestId in s.listFlight
    ensures CanFinish(s, l)
  {
    assert LoadOk(s, l);
    var e := ListDone(s.loads[l].requestId, Full, Elsewhere(true, None));
    AnnouncedWhenComplete(s, e, l);
    if s.loads[l].pinnedReceived {
      FinishNow(s, e, l);
    } else {
      StepKeepsCore(s, e);
      ListArrived(s, l);
      FinishPinned(Step(s, e), l);
      FinishAfter(s, e, l);
    }
  }

  lemma ListArrived(s: State, l: List)
    requires Core(s) && l in s.loads && s.loads[l].requestId in s.listFlight && !s.loads[l].pinnedReceived
    requires s.listFlight[s.loads[l].requestId] == l
    ensures var t := Step(s, ListDone(s.loads[l].requestId, Full, Elsewhere(true, None)));
      l in t.loads && t.loads[l].listReceived
  {
  }

  /** Asking again sends a request, unless loading is held back by date. */
  lemma FinishRequest(s: State, l: List)
    requires Core(s) && l in s.loads && s.loads[l].requestId == 0 && !s.blocked
    ensures CanFinish(s, l)
  {
    var e := RequestDialogs(l);
    PostedSame(s, l);
    StepKeepsCore(s, e);
    SentForm(s, l);
    FinishList(Step(s, e), l);
    FinishAfter(s, e, l);
  }

  lemma FinishBlocked(s: State, l: List)
    requires Core(s) && l in s.loads && s.loads[l].requestId == 0 && s.blocked
    ensures CanFinish(s, l)
  {
    var e := RequestMoreBlocked(0, 1);
    var s1 := s.(till := s.loads[Main].offset.date - 1);
    var s2 := Refreshed(s1);
    assert !s2.blocked && s2.loads == s.loads;
    SentForm(s2, Main);
    var t := Step(s, e);
    assert t == Refreshed(Sent(s2, Main));
    assert !t.blocked && l in t.loads;
    PostedMoreBlocked(s, 0, 1);
    StepKeepsCore(s, e);
    if l == Main {
      FinishList(t, l);
    } else {
      assert t.loads[l] == s.loads[l];
      FinishRequest(t, l);
    }
    FinishAfter(s, e, l);
  }

  /** A load that is there can still finish exactly when it is not stuck. */
  lemma FinishesExactlyWhenNotStuck(s: State, l: List)
    requires Core(s) && l in s.loads
    ensures CanFinish(s, l) <==> !Stuck(s, l)
  {
    if Stuck(s, l) {
      forall es | IsRun(s, es) ensures After(s, es).posted[l] == s.posted[l] {
        StuckForever(s, es, l);
      }
    } else if s.loads[l].listReceived {
      FinishPinned(s, l);
    } else if s.loads[l].requestId != 0 {
      FinishList(s, l);
    } else if s.blocked {
      FinishBlocked(s, l);
    } else {
      FinishRequest(s, l);
    }
  }
}
