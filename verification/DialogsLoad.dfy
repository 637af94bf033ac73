/** Loading the dialog lists: the main one and one for each folder, each in two halves, the paged
    list and the pinned dialogs. */
module DialogsLoad {
  import opened Basics

  datatype List = Main | Folder(id: int)

  datatype Offset = Offset(date: int, msg: int, peer: int)

  datatype Load = Load(offset: Offset, requestId: int, listReceived: bool, pinnedRequestId: int, pinnedReceived: bool)

  const FROM_START := Offset(0, 0, 0)

  const NEW_LOAD := Load(FROM_START, 0, false, 0, false)

  /** A list request as it is sent: from where it asks on, and for how many dialogs. */
  datatype ListAsk = ListAsk(requestId: int, list: List, offset: Offset, count: int)

  const FIRST_COUNT := 20
  const PAGE_COUNT := 500

  datatype State = State(
    loads: map<List, Load>,
    listFlight: map<int, List>,
    pinnedFlight: map<int, List>,
    nextId: int,
    till: int,        // load no further back than this date, 0 for no limit
    blocked: bool,
    mayBlock: bool,
    failed: bool,     // a handler found no load where it needs one
    started: multiset<List>,
    posted: multiset<List>,
    asked: seq<ListAsk>)  // every list request ever sent

  const START := State(map[Main := NEW_LOAD], map[], map[], 1, 0, false, false, false, multiset{Main}, multiset{},
    [])

  /** `Slice(None)`: no dated message was found in the reply. */
  datatype Reply = NotModified | Full | Slice(next: Option<Offset>)

  /** What the client decides elsewhere: whether filter exceptions are loaded next, and whether the
      archive folder is loaded and needed. */
  datatype Elsewhere = Elsewhere(exceptions: bool, archive: Option<List>)

  datatype Event =
    | RequestDialogs(list: List)
    | RequestMore(list: List)
    | RequestPinned(list: List)
    | RequestMoreBlocked(now: int, max: int)
    | SetTimeSlice(now: int, seconds: int)  // support mode: load this far back, 0 for no limit
    | ListDone(requestId: int, reply: Reply, elsewhere: Elsewhere)
    | ListFail(requestId: int)
    | PinnedDone(requestId: int)  // done or fail

  function Refreshed(s: State): State {
    if Main !in s.loads then s.(mayBlock := false, blocked := false)
    else
      var load := s.loads[Main];
      var open := !load.listReceived && s.till > 0;
      s.(mayBlock := open,
         blocked := open && load.requestId == 0 && 0 < load.offset.date <= s.till)
  }

  function Finished(s: State, list: List): State {
    if list !in s.loads || !s.loads[list].listReceived || !s.loads[list].pinnedReceived then s
    else s.(loads := s.loads - {list}, posted := s.posted + multiset{list})
  }

  function PinnedRequested(s: State, list: List): State {
    if list !in s.loads || s.loads[list].pinnedReceived || s.loads[list].pinnedRequestId != 0 then s
    else
      s.(loads := s.loads[list := s.loads[list].(pinnedRequestId := s.nextId)],
         pinnedFlight := s.pinnedFlight[s.nextId := list], nextId := s.nextId + 1)
  }

  function AskOf(s: State, list: List): ListAsk
    requires list in s.loads
  {
    var offset := s.loads[list].offset;
    ListAsk(s.nextId, list, offset, if offset.date == 0 then FIRST_COUNT else PAGE_COUNT)
  }

  function MoreRequested(s: State, list: List): State {
    if list !in s.loads || s.loads[list].requestId != 0 || s.blocked then s
    else
      var t := s.(loads := s.loads[list := s.loads[list].(requestId := s.nextId)],
                  listFlight := s.listFlight[s.nextId := list], nextId := s.nextId + 1,
                  asked := s.asked + [AskOf(s, list)]);
      var u := if t.loads[list].pinnedReceived then t else PinnedRequested(t, list);
      if list == Main then Refreshed(u) else u
  }

  function DialogsRequested(s: State, list: List): State {
    MoreRequested(
      if list.Folder? && list !in s.loads
      then s.(loads := s.loads[list := NEW_LOAD], started := s.started + multiset{list}) else s,
      list)
  }

  function MoreIfNeeded(s: State, e: Elsewhere): State {
    if e.exceptions then s
    else if Main in s.loads && !s.loads[Main].listReceived then
      if s.loads[Main].requestId != 0 then s else DialogsRequested(s, Main)
    else match e.archive
         case Some(list) => MoreRequested(s, list)
         case None => s
  }

  /** The part of the list reply that concerns this load. */
  function Received(s: State, list: List, reply: Reply): State {
    if list !in s.loads then s
    else match reply
      case NotModified => s
      case Slice(Some(next)) =>
        s.(loads := s.loads[list := s.loads[list].(offset := next, requestId := 0)])
      case _ =>
        Finished(s.(loads := s.loads[list := s.loads[list].(listReceived := true)]), list)
  }

  predicate Enabled(s: State, e: Event) {
    match e
    case RequestDialogs(_) => true
    case RequestMore(_) => true
    case RequestPinned(_) => true
    case RequestMoreBlocked(_, _) => true
    case SetTimeSlice(_, _) => true
    case ListDone(id, reply, _) =>
      id in s.listFlight && (reply.Slice? && reply.next.Some? ==> reply.next.value.date != 0)
    case ListFail(id) => id in s.listFlight
    case PinnedDone(id) => id in s.pinnedFlight
  }

  function Step(s: State, e: Event): State
    requires Enabled(s, e)
  {
    match e
    case RequestDialogs(list) => DialogsRequested(s, list)
    case RequestMore(list) => MoreRequested(s, list)
    case RequestPinned(list) => PinnedRequested(s, list)
    case RequestMoreBlocked(now, max) =>
      if Main !in s.loads then s
      else
        var date := s.loads[Main].offset.date;
        DialogsRequested(Refreshed(s.(till := if date != 0 then date - max else now - max)), Main)
    case SetTimeSlice(now, seconds) => Refreshed(s.(till := if seconds != 0 then Max(now - seconds, 0) else 0))
    case ListDone(id, reply, elsewhere) =>
      var list := s.listFlight[id];
      var t := Received(s.(listFlight := s.listFlight - {id}), list, reply);
      var u := if list == Main && (Main !in t.loads || !t.loads[Main].listReceived) then Refreshed(t) else t;
      MoreIfNeeded(u, elsewhere)
    case ListFail(id) =>
      var list := s.listFlight[id];
      var t := s.(listFlight := s.listFlight - {id});
      if list in t.loads then t.(loads := t.loads[list := t.loads[list].(requestId := 0)]) else t.(failed := true)
    case PinnedDone(id) =>
      var list := s.pinnedFlight[id];
      var t := s.(pinnedFlight := s.pinnedFlight - {id});
      if list in t.loads
      then Finished(t.(loads := t.loads[list := t.loads[list].(pinnedRequestId := 0, pinnedReceived := true)]), list)
      else t
  }

  ghost predicate IsRun(s: State, es: seq<Event>)
    decreases |es|
  {
    es == [] || (Enabled(s, es[0]) && IsRun(Step(s, es[0]), es[1..]))
  }

  ghost function After(s: State, es: seq<Event>): State
    requires IsRun(s, es)
    decreases |es|
  {
    if es == [] then s else After(Step(s, es[0]), es[1..])
  }

  // ---------- the invariant ----------

  /** A list request in flight is the one its load waits for. */
  ghost predicate ListFlightOk(s: State) {
    forall id :: id in s.listFlight ==>
      0 < id < s.nextId && s.listFlight[id] in s.loads
      && s.loads[s.listFlight[id]].requestId == id && !s.loads[s.listFlight[id]].listReceived
  }

  ghost predicate PinnedFlightOk(s: State) {
    forall id :: id in s.pinnedFlight ==>
      0 < id < s.nextId && s.pinnedFlight[id] in s.loads
      && s.loads[s.pinnedFlight[id]].pinnedRequestId == id && !s.loads[s.pinnedFlight[id]].pinnedReceived
  }

  ghost predicate LoadOk(s: State, list: List)
    requires list in s.loads
  {
    var load := s.loads[list];
    && 0 <= load.requestId < s.nextId
    && !(load.listReceived && load.pinnedReceived)
    && (load.listReceived ==> load.requestId != 0)
    && (load.requestId != 0 ==> load.pinnedReceived || load.pinnedRequestId != 0)
    && (load.pinnedRequestId != 0 ==>
      load.pinnedRequestId in s.pinnedFlight && s.pinnedFlight[load.pinnedRequestId] == list)
    && (load.requestId in s.listFlight ==> s.listFlight[load.requestId] == list)
  }

  ghost predicate BlockedOk(s: State) {
    s.blocked ==>
      Main in s.loads && s.loads[Main].requestId == 0 && 0 < s.loads[Main].offset.date <= s.till
  }

  /** Each load that was started is either still there or was announced as done, once. */
  ghost predicate Accounted(s: State) {
    forall list :: s.started[list] == s.posted[list] + (if list in s.loads then 1 else 0)
  }

  ghost predicate LoadsOk(s: State) {
    forall list :: list in s.loads ==> LoadOk(s, list)
  }

  ghost predicate Core(s: State) {
    s.nextId > 0 && !s.failed && ListFlightOk(s) && PinnedFlightOk(s) && BlockedOk(s) && LoadsOk(s)
  }

  ghost predicate Inv(s: State) { Core(s) && Accounted(s) }

  lemma CoreRefresh(s: State)
    requires Core(s.(blocked := false))
    ensures Core(Refreshed(s))
  {
  }

  /** The state after both halves were requested, as far as each is needed. */
  function Sent(s: State, list: List): State
    requires list in s.loads
  {
    var load := s.loads[list].(requestId := s.nextId);
    var t := s.(listFlight := s.listFlight[s.nextId := list], asked := s.asked + [AskOf(s, list)]);
    if load.pinnedReceived || load.pinnedRequestId != 0 then t.(loads := s.loads[list := load], nextId := s.nextId + 1)
    else t.(loads := s.loads[list := load.(pinnedRequestId := s.nextId + 1)],
            pinnedFlight := s.pinnedFlight[s.nextId + 1 := list], nextId := s.nextId + 2)
  }

  lemma SentForm(s: State, list: List)
    requires list in s.loads && s.loads[list].requestId == 0 && !s.blocked
    ensures MoreRequested(s, list) == if list == Main then Refreshed(Sent(s, list)) else Sent(s, list)
  {
    hide Refreshed;
    var load := s.loads[list].(requestId := s.nextId);
    var t := s.(loads := s.loads[list := load], listFlight := s.listFlight[s.nextId := list], nextId := s.nextId + 1,
                asked := s.asked + [AskOf(s, list)]);
    if load.pinnedReceived || load.pinnedRequestId != 0 {
      assert Sent(s, list) == t;
    } else {
      var both := load.(pinnedRequestId := t.nextId);
      assert s.loads[list := load][list := both] == s.loads[list := both];
      assert Sent(s, list) == PinnedRequested(t, list);
    }
  }

  lemma MoreForm(s: State, list: List)
    ensures MoreRequested(s, list)
         == if list !in s.loads || s.loads[list].requestId != 0 || s.blocked then s
            else if list == Main then Refreshed(Sent(s, list)) else Sent(s, list)
  {
    hide Sent, Refreshed, PinnedRequested;
    if list in s.loads && s.loads[list].requestId == 0 && !s.blocked {
      SentForm(s, list);
    }
  }

  lemma SentListFlights(s: State, list: List)
    requires Core(s) && list in s.loads && s.loads[list].requestId == 0
    ensures ListFlightOk(Sent(s, list))
  {
    hide BlockedOk, LoadOk, PinnedFlightOk;
    assert LoadOk(s, list);
    LoadListReceived(s, list);
  }

  lemma SentPinnedFlights(s: State, list: List)
    requires PinnedFlightOk(s) && s.nextId > 0 && list in s.loads
    ensures PinnedFlightOk(Sent(s, list))
  {
    var t := Sent(s, list);
    forall id | id in t.pinnedFlight
      ensures 0 < id < t.nextId && t.pinnedFlight[id] in t.loads
      ensures t.loads[t.pinnedFlight[id]].pinnedRequestId == id && !t.loads[t.pinnedFlight[id]].pinnedReceived
    {
    }
  }

  lemma LoadListReceived(s: State, list: List)
    requires list in s.loads && LoadOk(s, list)
    ensures s.loads[list].listReceived ==> s.loads[list].requestId != 0
  {
  }

  lemma SentLoads(s: State, list: List)
    requires Core(s) && list in s.loads && s.loads[list].requestId == 0
    ensures LoadsOk(Sent(s, list))
  {
    hide BlockedOk;
    var t := Sent(s, list);
    forall l | l in t.loads ensures LoadOk(t, l) {
      assert LoadOk(s, l);
    }
  }

  lemma CoreMore(s: State, list: List)
    requires Core(s)
    ensures Core(MoreRequested(s, list))
  {
    if list in s.loads && s.loads[list].requestId == 0 && !s.blocked {
      SentForm(s, list);
      SentListFlights(s, list);
      SentPinnedFlights(s, list);
      SentLoads(s, list);
      assert Core(Sent(s, list)) by {
        hide ListFlightOk, PinnedFlightOk, LoadsOk;
      }
      if list == Main {
        assert Sent(s, list).(blocked := false) == Sent(s, list);
        hide Core, Sent;
        CoreRefresh(Sent(s, list));
      }
    }
  }

  lemma CoreDialogs(s: State, list: List)
    requires Core(s)
    ensures Core(DialogsRequested(s, list))
  {
    if list.Folder? && list !in s.loads {
      var t := s.(loads := s.loads[list := NEW_LOAD], started := s.started + multiset{list});
      assert Core(t);
      CoreMore(t, list);
    } else {
      CoreMore(s, list);
    }
  }

  lemma CoreIfNeeded(s: State, e: Elsewhere)
    requires Core(s)
    ensures Core(MoreIfNeeded(s, e))
  {
    hide Core, MoreRequested, DialogsRequested;
    CoreDialogs(s, Main);
    if e.archive.Some? {
      CoreMore(s, e.archive.value);
    }
  }

  lemma PinnedFlights(s: State, list: List)
    requires ListFlightOk(s) && PinnedFlightOk(s) && BlockedOk(s) && s.nextId > 0
    ensures var t := PinnedRequested(s, list);
      ListFlightOk(t) && PinnedFlightOk(t) && BlockedOk(t)
  {
  }

  lemma PinnedLoads(s: State, list: List)
    requires LoadsOk(s) && s.nextId > 0 && forall id :: id in s.pinnedFlight ==> id < s.nextId
    ensures LoadsOk(PinnedRequested(s, list))
  {
    var t := PinnedRequested(s, list);
    forall l | l in t.loads ensures LoadOk(t, l) {
      assert LoadOk(s, l);
    }
  }

  lemma CorePinned(s: State, list: List)
    requires Core(s)
    ensures Core(PinnedRequested(s, list))
  {
    PinnedFlights(s, list);
    PinnedLoads(s, list);
    hide ListFlightOk, BlockedOk, LoadsOk, PinnedFlightOk;
  }

  lemma CoreLanded(s: State, id: int)
    requires Core(s) && id in s.listFlight
    ensures Core(s.(listFlight := s.listFlight - {id}))
    ensures var list := s.listFlight[id];
      && list in s.loads && id !in s.listFlight - {id}
      && s.loads[list].requestId == id != 0 && !s.loads[list].listReceived
      && (list == Main ==> !s.blocked)
  {
    var t := s.(listFlight := s.listFlight - {id});
    forall l | l in t.loads ensures LoadOk(t, l) {
      assert LoadOk(s, l);
    }
  }

  /** A load whose list request is not in flight any more may ask again, from the same or a new offset. */
  lemma CoreReset(s: State, list: List, offset: Offset)
    requires Core(s) && list in s.loads && s.loads[list].requestId !in s.listFlight
    requires !s.loads[list].listReceived && (list == Main ==> !s.blocked)
    ensures Core(s.(loads := s.loads[list := s.loads[list].(offset := offset, requestId := 0)]))
  {
    var t := s.(loads := s.loads[list := s.loads[list].(offset := offset, requestId := 0)]);
    forall l | l in t.loads ensures LoadOk(t, l) {
      assert LoadOk(s, l);
    }
  }

  lemma CoreListKept(s: State, list: List)
    requires Core(s) && list in s.loads && s.loads[list].requestId !in s.listFlight
    requires s.loads[list].requestId != 0 && !s.loads[list].pinnedReceived
    ensures Core(s.(loads := s.loads[list := s.loads[list].(listReceived := true)]))
  {
    var t := s.(loads := s.loads[list := s.loads[list].(listReceived := true)]);
    forall l | l in t.loads ensures LoadOk(t, l) {
      assert LoadOk(s, l);
    }
  }

  lemma CoreListLast(s: State, list: List)
    requires Core(s) && list in s.loads && s.loads[list].requestId !in s.listFlight
    requires s.loads[list].requestId != 0 && s.loads[list].pinnedReceived
    ensures Core(s.(loads := s.loads - {list}, posted := s.posted + multiset{list}))
  {
    var t := s.(loads := s.loads - {list}, posted := s.posted + multiset{list});
    assert LoadOk(s, list);
    forall l | l in t.loads ensures LoadOk(t, l) {
      assert LoadOk(s, l);
    }
  }

  lemma CoreListReceived(s: State, list: List)
    requires Core(s) && list in s.loads && s.loads[list].requestId !in s.listFlight
    requires s.loads[list].requestId != 0
    ensures Core(Finished(s.(loads := s.loads[list := s.loads[list].(listReceived := true)]), list))
  {
    hide Core;
    var load := s.loads[list].(listReceived := true);
    if s.loads[list].pinnedReceived {
      CoreListLast(s, list);
      assert s.loads[list := load] - {list} == s.loads - {list};
    } else {
      CoreListKept(s, list);
    }
  }

  lemma CoreReceived(s: State, id: int, reply: Reply)
    requires Core(s) && id in s.listFlight
    ensures Core(Received(s.(listFlight := s.listFlight - {id}), s.listFlight[id], reply))
  {
    CoreLanded(s, id);
    var list, t := s.listFlight[id], s.(listFlight := s.listFlight - {id});
    assert t.loads == s.loads;
    hide Core;
    match reply {
      case NotModified =>
      case Full => CoreListReceived(t, list);
      case Slice(Some(next)) => CoreReset(t, list, next);
      case Slice(None) => CoreListReceived(t, list);
    }
  }

  lemma CoreListDone(s: State, id: int, reply: Reply, e: Elsewhere)
    requires Core(s) && Enabled(s, ListDone(id, reply, e))
    ensures Core(Step(s, ListDone(id, reply, e)))
  {
    hide Core, Received, Refreshed, MoreIfNeeded;
    CoreReceived(s, id, reply);
    var u := Received(s.(listFlight := s.listFlight - {id}), s.listFlight[id], reply);
    CoreUnblock(u);
    CoreRefresh(u);
    CoreIfNeeded(Refreshed(u), e);
    CoreIfNeeded(u, e);
  }

  lemma CoreUnblock(s: State)
    requires Core(s)
    ensures Core(s.(blocked := false))
  {
    forall l | l in s.loads ensures LoadOk(s.(blocked := false), l) {
      assert LoadOk(s, l);
    }
  }

  lemma CoreListFail(s: State, id: int)
    requires Core(s) && Enabled(s, ListFail(id))
    ensures Core(Step(s, ListFail(id)))
  {
    CoreLanded(s, id);
    var list, t := s.listFlight[id], s.(listFlight := s.listFlight - {id});
    CoreReset(t, list, t.loads[list].offset);
  }

  lemma CorePinnedKept(s: State, id: int)
    requires Core(s) && id in s.pinnedFlight && !s.loads[s.pinnedFlight[id]].listReceived
    ensures var list := s.pinnedFlight[id];
      Core(s.(pinnedFlight := s.pinnedFlight - {id},
              loads := s.loads[list := s.loads[list].(pinnedRequestId := 0, pinnedReceived := true)]))
  {
    var list := s.pinnedFlight[id];
    var t := s.(pinnedFlight := s.pinnedFlight - {id},
                loads := s.loads[list := s.loads[list].(pinnedRequestId := 0, pinnedReceived := true)]);
    assert LoadOk(s, list);
    forall l | l in t.loads ensures LoadOk(t, l) {
      assert LoadOk(s, l);
    }
  }

  lemma CorePinnedLast(s: State, id: int)
    requires Core(s) && id in s.pinnedFlight && s.loads[s.pinnedFlight[id]].listReceived
    ensures var list := s.pinnedFlight[id];
      Core(s.(pinnedFlight := s.pinnedFlight - {id}, loads := s.loads - {list}, posted := s.posted + multiset{list}))
  {
    var list := s.pinnedFlight[id];
    var t := s.(pinnedFlight := s.pinnedFlight - {id}, loads := s.loads - {list}, posted := s.posted + multiset{list});
    assert LoadOk(s, list);
    forall l | l in t.loads ensures LoadOk(t, l) {
      assert LoadOk(s, l);
    }
  }

  lemma CorePinnedDone(s: State, id: int)
    requires Core(s) && Enabled(s, PinnedDone(id))
    ensures Core(Step(s, PinnedDone(id)))
  {
    var list := s.pinnedFlight[id];
    assert list in s.loads;
    var load := s.loads[list].(pinnedRequestId := 0, pinnedReceived := true);
    assert s.loads[list := load] - {list} == s.loads - {list};
    if s.loads[list].listReceived {
      CorePinnedLast(s, id);
    } else {
      CorePinnedKept(s, id);
    }
    hide Core;
  }

  lemma CoreLimit(s: State, till: int)
    requires Core(s)
    ensures Core(s.(till := till, blocked := false))
  {
    forall l | l in s.loads ensures LoadOk(s.(till := till, blocked := false), l) {
      assert LoadOk(s, l);
    }
  }

  lemma CoreMoreBlocked(s: State, now: int, max: int)
    requires Core(s)
    ensures Core(Step(s, RequestMoreBlocked(now, max)))
  {
    hide Core, Refreshed, DialogsRequested;
    if Main in s.loads {
      var date := s.loads[Main].offset.date;
      var till := if date != 0 then date - max else now - max;
      CoreLimit(s, till);
      CoreRefresh(s.(till := till));
      CoreDialogs(Refreshed(s.(till := till)), Main);
    }
  }

  lemma CoreTimeSlice(s: State, till: int)
    requires Core(s)
    ensures Core(Refreshed(s.(till := till)))
  {
    hide Core, Refreshed;
    CoreLimit(s, till);
    CoreRefresh(s.(till := till));
  }

  lemma StepKeepsCore(s: State, e: Event)
    requires Core(s) && Enabled(s, e)
    ensures Core(Step(s, e))
  {
    match e {
      case RequestDialogs(list) => CoreDialogs(s, list);
      case RequestMore(list) => CoreMore(s, list);
      case RequestPinned(list) => CorePinned(s, list);
      case RequestMoreBlocked(now, max) => CoreMoreBlocked(s, now, max);
      case SetTimeSlice(now, seconds) => CoreTimeSlice(s, if seconds != 0 then Max(now - seconds, 0) else 0);
      case ListDone(id, reply, elsewhere) => CoreListDone(s, id, reply, elsewhere);
      case ListFail(id) => CoreListFail(s, id);
      case PinnedDone(id) => CorePinnedDone(s, id);
    }
  }

  // ---------- every load is announced once ----------

  lemma AccountedMore(s: State, list: List)
    ensures MoreRequested(s, list).loads.Keys == s.loads.Keys
    ensures MoreRequested(s, list).started == s.started && MoreRequested(s, list).posted == s.posted
  {
    hide MoreRequested;
    MoreForm(s, list);
  }

  lemma AccountedDialogs(s: State, list: List)
    requires Accounted(s)
    ensures Accounted(DialogsRequested(s, list))
  {
    hide MoreRequested;
    AccountedMore(s, list);
    AccountedMore(s.(loads := s.loads[list := NEW_LOAD], started := s.started + multiset{list}), list);
  }

  lemma AccountedFinish(s: State, list: List)
    requires Accounted(s)
    ensures Accounted(Finished(s, list))
  {
  }

  lemma AccountedSame(s: State, t: State)
    requires Accounted(s) && t.loads.Keys == s.loads.Keys && t.started == s.started && t.posted == s.posted
    ensures Accounted(t)
  {
    assert forall list :: list in t.loads <==> list in t.loads.Keys;
  }

  lemma AccountedReceived(s: State, list: List, reply: Reply)
    requires Accounted(s)
    ensures Accounted(Received(s, list, reply))
  {
    hide Accounted, Finished;
    if list in s.loads {
      var t := s.(loads := s.loads[list := s.loads[list].(listReceived := true)]);
      assert t.loads.Keys == s.loads.Keys;
      AccountedSame(s, t);
      AccountedFinish(t, list);
      if reply.Slice? && reply.next.Some? {
        var u := Received(s, list, reply);
        assert u.loads.Keys == s.loads.Keys;
        AccountedSame(s, u);
      }
    }
  }

  lemma AccountedListDone(s: State, id: int, reply: Reply, e: Elsewhere)
    requires Accounted(s) && Enabled(s, ListDone(id, reply, e))
    ensures Accounted(Step(s, ListDone(id, reply, e)))
  {
    hide Accounted, Received, Refreshed, MoreIfNeeded;
    var list, t := s.listFlight[id], s.(listFlight := s.listFlight - {id});
    var u := Received(t, list, reply);
    AccountedSame(s, t);
    AccountedReceived(t, list, reply);
    AccountedRefresh(u);
    AccountedIfNeeded(u, e);
    AccountedIfNeeded(Refreshed(u), e);
  }

  lemma StepKeepsAccounted(s: State, e: Event)
    requires Accounted(s) && Enabled(s, e)
    ensures Accounted(Step(s, e))
  {
    hide MoreRequested, DialogsRequested, Refreshed, PinnedRequested, Finished, Received, Accounted, MoreIfNeeded;
    match e {
      case RequestDialogs(list) => AccountedDialogs(s, list);
      case RequestMore(list) => AccountedMoreKept(s, list);
      case RequestPinned(list) => AccountedPinned(s, list);
      case RequestMoreBlocked(now, max) =>
        if Main in s.loads {
          var date := s.loads[Main].offset.date;
          var till := if date != 0 then date - max else now - max;
          AccountedTill(s, till);
          AccountedDialogs(Refreshed(s.(till := till)), Main);
        }
      case SetTimeSlice(now, seconds) =>
        AccountedTill(s, if seconds != 0 then Max(now - seconds, 0) else 0);
      case ListDone(id, reply, elsewhere) => AccountedListDone(s, id, reply, elsewhere);
      case ListFail(id) => AccountedListFail(s, id);
      case PinnedDone(id) => AccountedPinnedDone(s, id);
    }
  }

  lemma AccountedMoreKept(s: State, list: List)
    requires Accounted(s)
    ensures Accounted(MoreRequested(s, list))
  {
    hide MoreRequested, Accounted;
    AccountedMore(s, list);
    AccountedSame(s, MoreRequested(s, list));
  }

  lemma AccountedTill(s: State, till: int)
    requires Accounted(s)
    ensures Accounted(Refreshed(s.(till := till)))
  {
  }

  lemma AccountedListFail(s: State, id: int)
    requires Accounted(s) && Enabled(s, ListFail(id))
    ensures Accounted(Step(s, ListFail(id)))
  {
    hide Accounted;
    var t := Step(s, ListFail(id));
    assert t.loads.Keys == s.loads.Keys;
    AccountedSame(s, t);
  }

  lemma AccountedPinnedDone(s: State, id: int)
    requires Accounted(s) && Enabled(s, PinnedDone(id))
    ensures Accounted(Step(s, PinnedDone(id)))
  {
    hide Finished;
    var list, t := s.pinnedFlight[id], s.(pinnedFlight := s.pinnedFlight - {id});
    if list in t.loads {
      AccountedFinish(t.(loads := t.loads[list := t.loads[list].(pinnedRequestId := 0, pinnedReceived := true)]), list);
    }
  }

  lemma AccountedPinned(s: State, list: List)
    requires Accounted(s)
    ensures Accounted(PinnedRequested(s, list))
  {
  }

  lemma AccountedRefresh(s: State)
    requires Accounted(s)
    ensures Accounted(Refreshed(s))
  {
  }

  lemma AccountedIfNeeded(s: State, e: Elsewhere)
    requires Accounted(s)
    ensures Accounted(MoreIfNeeded(s, e))
  {
    hide MoreRequested, DialogsRequested;
    AccountedDialogs(s, Main);
    if e.archive.Some? {
      AccountedMore(s, e.archive.value);
    }
  }

  lemma {:induction false} RunKeepsInv(s: State, es: seq<Event>)
    requires Inv(s) && IsRun(s, es)
    ensures Inv(After(s, es))
    decreases |es|
  {
    hide Core, Accounted, Step, Enabled;
    if es != [] {
      StepKeepsCore(s, es[0]);
      StepKeepsAccounted(s, es[0]);
      RunKeepsInv(Step(s, es[0]), es[1..]);
    }
  }

  lemma StartInv()
    ensures Inv(START)
  {
  }

  /** In every reachable state: at most one list and one pinned request per load, each with its load
      there and its half missing, and no handler that ever found its load gone. */
  lemma RequestsHaveTheirLoad(es: seq<Event>)
    requires IsRun(START, es)
    ensures var s := After(START, es);
      && !s.failed
      && (forall id :: id in s.listFlight ==> s.listFlight[id] in s.loads && !s.loads[s.listFlight[id]].listReceived)
      && (forall id :: id in s.pinnedFlight ==>
            s.pinnedFlight[id] in s.loads && !s.loads[s.pinnedFlight[id]].pinnedReceived)
      && (forall i, j :: i in s.listFlight && j in s.listFlight && s.listFlight[i] == s.listFlight[j] ==> i == j)
      && (forall i, j :: i in s.pinnedFlight && j in s.pinnedFlight && s.pinnedFlight[i] == s.pinnedFlight[j] ==>
        i == j)
  {
    StartInv();
    RunKeepsInv(START, es);
  }

  /** Every load that was ever started is either still there, or was announced as done, once. */
  lemma AnnouncedOncePerLoad(es: seq<Event>)
    requires IsRun(START, es)
    ensures var s := After(START, es);
      forall list :: s.started[list] == s.posted[list] + (if list in s.loads then 1 else 0)
  {
    StartInv();
    RunKeepsInv(START, es);
  }

  /** The event that brings the half of `list` that was still missing. */
  ghost predicate Completes(s: State, e: Event, list: List) {
    && list in s.loads
    && match e
       case ListDone(id, reply, _) =>
         id in s.listFlight && s.listFlight[id] == list && s.loads[list].pinnedReceived
         && (reply.Full? || (reply.Slice? && reply.next.None?))
       case PinnedDone(id) => id in s.pinnedFlight && s.pinnedFlight[id] == list && s.loads[list].listReceived
       case _ => false
  }

  lemma PostedSame(s: State, list: List)
    ensures MoreRequested(s, list).posted == s.posted && DialogsRequested(s, list).posted == s.posted
  {
    hide MoreRequested;
    AccountedMore(s, list);
    AccountedMore(s.(loads := s.loads[list := NEW_LOAD], started := s.started + multiset{list}), list);
  }

  lemma PostedIfNeeded(s: State, e: Elsewhere)
    ensures MoreIfNeeded(s, e).posted == s.posted && Refreshed(s).posted == s.posted
  {
    hide MoreRequested, DialogsRequested;
    PostedSame(s, Main);
    if e.archive.Some? {
      PostedSame(s, e.archive.value);
    }
  }

  lemma PostedMoreBlocked(s: State, now: int, max: int)
    ensures Step(s, RequestMoreBlocked(now, max)).posted == s.posted
  {
    hide DialogsRequested, Refreshed;
    if Main in s.loads {
      var date := s.loads[Main].offset.date;
      var t := s.(till := if date != 0 then date - max else now - max);
      PostedIfNeeded(t, Elsewhere(true, None));
      PostedSame(Refreshed(t), Main);
    }
  }

  lemma PostedReceived(s: State, l: List, reply: Reply)
    ensures Received(s, l, reply).posted
         == if l in s.loads && s.loads[l].pinnedReceived && (reply.Full? || (reply.Slice? && reply.next.None?))
            then s.posted + multiset{l} else s.posted
  {
    hide Finished;
    if l in s.loads {
      PostedFinished(s.(loads := s.loads[l := s.loads[l].(listReceived := true)]), l);
    }
  }

  lemma PostedFinished(s: State, l: List)
    ensures Finished(s, l).posted
         == if l in s.loads && s.loads[l].listReceived && s.loads[l].pinnedReceived
            then s.posted + multiset{l} else s.posted
  {
  }

  lemma PostedListDone(s: State, id: int, reply: Reply, e: Elsewhere)
    requires Enabled(s, ListDone(id, reply, e))
    ensures Step(s, ListDone(id, reply, e)).posted
         == Received(s.(listFlight := s.listFlight - {id}), s.listFlight[id], reply).posted
  {
    hide Received, Refreshed, MoreIfNeeded;
    var u := Received(s.(listFlight := s.listFlight - {id}), s.listFlight[id], reply);
    PostedIfNeeded(u, e);
    PostedIfNeeded(Refreshed(u), e);
  }

  lemma PostedPinnedDone(s: State, id: int)
    requires Core(s) && Enabled(s, PinnedDone(id))
    ensures Step(s, PinnedDone(id)).posted
         == if s.loads[s.pinnedFlight[id]].listReceived then s.posted + multiset{s.pinnedFlight[id]} else s.posted
  {
  }

  /** A load is announced exactly by the event after which both its halves have arrived. */
  lemma AnnouncedWhenComplete(s: State, e: Event, list: List)
    requires Core(s) && Enabled(s, e)
    ensures Step(s, e).posted[list] == s.posted[list] + (if Completes(s, e, list) then 1 else 0)
  {
    hide MoreRequested, DialogsRequested, PinnedRequested, Refreshed, Received, MoreIfNeeded;
    match e {
      case RequestDialogs(l) => PostedSame(s, l);
      case RequestMore(l) => PostedSame(s, l);
      case RequestPinned(l) => PostedPinned(s, l);
      case RequestMoreBlocked(now, max) => PostedMoreBlocked(s, now, max);
      case SetTimeSlice(now, seconds) =>
        PostedIfNeeded(s.(till := if seconds != 0 then Max(now - seconds, 0) else 0), Elsewhere(true, None));
      case ListDone(id, reply, elsewhere) =>
        PostedListDone(s, id, reply, elsewhere);
        PostedReceived(s.(listFlight := s.listFlight - {id}), s.listFlight[id], reply);
        assert s.listFlight[id] in s.loads;
      case ListFail(id) =>
      case PinnedDone(id) => PostedPinnedDone(s, id);
    }
  }

  lemma PostedPinned(s: State, list: List)
    ensures PinnedRequested(s, list).posted == s.posted
  {
  }
}
