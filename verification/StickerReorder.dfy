/** Installing, uninstalling and then reordering sticker sets on the server, over any sequence of saves. */
module StickerReorder {
  import opened StickerSets

  /** A request in flight, and the save whose order its handler remembers. */
  datatype Request = Toggle(save: nat) | Reorder(save: nat)

  datatype Sent = Sent(save: nat, order: seq<SetId>)

  datatype State = State(
    orders: seq<seq<SetId>>,       // the local order of each save so far
    disable: set<int>,             // setDisenableRequests
    reorder: int,                  // the reorder request, 0 when there is none
    inflight: map<int, Request>,
    nextId: int,
    sent: seq<Sent>)               // the reorder requests ever sent

  const START := State([], {}, 0, map[], 1, [])

  datatype Event =
    | Save(order: seq<SetId>, toggles: set<int>, nextId: int)  // toggles: its install and uninstall requests
    | Complete(requestId: int)                                 // done or fail: the same for the protocol

  ghost predicate Enabled(s: State, e: Event) {
    match e
    case Save(_, toggles, nextId) => s.nextId <= nextId && forall r :: r in toggles ==> s.nextId <= r < nextId
    case Complete(requestId) => requestId in s.inflight
  }

  /** `stickersSaveOrder` of one save. */
  function SaveOrder(s: State, save: nat): State
    requires save < |s.orders|
  {
    if |s.orders[save]| < 2 then s
    else s.(reorder := s.nextId, inflight := s.inflight[s.nextId := Reorder(save)], nextId := s.nextId + 1,
            sent := s.sent + [Sent(save, s.orders[save])])
  }

  /** The older install, uninstall and reorder requests are cancelled: they never complete. */
  function Cancelled(s: State): map<int, Request> { s.inflight - s.disable - {s.reorder} }

  function Toggles(ids: set<int>, save: nat): map<int, Request> { map r | r in ids :: Toggle(save) }

  function Saving(s: State, order: seq<SetId>, toggles: set<int>, nextId: int): State {
    s.(orders := s.orders + [order], disable := toggles, reorder := 0,
       inflight := Cancelled(s) + Toggles(toggles, |s.orders|), nextId := nextId)
  }

  /** `stickerSetDisenabled`. */
  function Disenabled(s: State, requestId: int, save: nat): State
    requires save < |s.orders|
  {
    var s' := s.(disable := s.disable - {requestId}, inflight := s.inflight - {requestId});
    if s'.disable == {} then SaveOrder(s', save) else s'
  }

  ghost predicate RequestsKnown(s: State) {
    forall r :: r in s.inflight ==> 0 < r < s.nextId && s.inflight[r].save < |s.orders|
  }

  ghost function Step(s: State, e: Event): State
    requires RequestsKnown(s) && Enabled(s, e)
  {
    match e
    case Save(order, toggles, nextId) =>
      var s' := Saving(s, order, toggles, nextId);
      if toggles == {} then SaveOrder(s', |s.orders|) else s'
    case Complete(requestId) =>
      match s.inflight[requestId]
      case Toggle(save) => Disenabled(s, requestId, save)
      case Reorder(_) => s.(reorder := 0, inflight := s.inflight - {requestId})
  }

  /** Everything in flight belongs to the latest save, and is noted in the two fields. */
  ghost predicate InFlight(s: State) {
    && 0 < s.nextId
    && (forall r :: r in s.inflight ==> s.inflight[r].save + 1 == |s.orders|)
    && (forall r :: r in s.inflight && s.inflight[r].Toggle? <==> r in s.disable)
    && (forall r :: r in s.inflight && s.inflight[r].Reorder? ==> r == s.reorder && LatestSent(s))
    && (s.disable != {} ==> s.reorder == 0)
  }

  /** The reorder requests: at most one per save, each with its own save's order. */
  ghost predicate SentInTurn(s: State) {
    && (forall i :: 0 <= i < |s.sent| ==> s.sent[i].save < |s.orders| && s.sent[i].order == s.orders[s.sent[i].save])
    && (forall i, j :: 0 <= i < j < |s.sent| ==> s.sent[i].save < s.sent[j].save)
  }

  ghost predicate LatestSent(s: State) { s.sent != [] && s.sent[|s.sent| - 1].save + 1 == |s.orders| }

  /** The latest save's order is out exactly when none of its toggles is, if there is an order to speak of. */
  ghost predicate SentWhenToggled(s: State) {
    s.orders != [] ==> (LatestSent(s) <==> s.disable == {} && |s.orders[|s.orders| - 1]| >= 2)
  }

  ghost predicate Inv(s: State) { RequestsKnown(s) && InFlight(s) && SentInTurn(s) && SentWhenToggled(s) }

  lemma StartKeepsInv()
    ensures Inv(START)
  {
  }

  /** What holds between a save's bookkeeping and the sending of its order. */
  ghost predicate ReadyToSend(s: State) {
    RequestsKnown(s) && InFlight(s) && SentInTurn(s) && s.orders != [] && s.disable == {} && !LatestSent(s)
  }

  lemma NothingInFlight(s: State)
    requires ReadyToSend(s)
    ensures s.inflight == map[]
  {
    assert forall r :: r in s.inflight ==> r in s.disable || LatestSent(s);
    assert s.inflight.Keys == {};
  }

  lemma SentGrows(s: State)
    requires ReadyToSend(s)
    ensures SentInTurn(s.(sent := s.sent + [Sent(|s.orders| - 1, s.orders[|s.orders| - 1])]))
    ensures SentInTurn(SaveOrder(s, |s.orders| - 1))
  {
    var more := s.sent + [Sent(|s.orders| - 1, s.orders[|s.orders| - 1])];
    forall i | 0 <= i < |s.sent| ensures more[i] == s.sent[i] && s.sent[i].save < |s.orders| - 1 {
      assert i < |s.sent| - 1 ==> s.sent[i].save < s.sent[|s.sent| - 1].save;
    }
  }

  lemma SaveOrderKeepsInv(s: State)
    requires ReadyToSend(s)
    ensures Inv(SaveOrder(s, |s.orders| - 1))
  {
    var s' := SaveOrder(s, |s.orders| - 1);
    assert s.inflight == map[] by { NothingInFlight(s); }
    if |s.orders[|s.orders| - 1]| >= 2 {
      SentGrows(s);
    }
    hide SentInTurn;
  }

  lemma SavingKeeps(s: State, order: seq<SetId>, toggles: set<int>, nextId: int)
    requires Inv(s) && Enabled(s, Save(order, toggles, nextId))
    ensures var s' := Saving(s, order, toggles, nextId);
      && RequestsKnown(s') && InFlight(s') && SentInTurn(s') && !LatestSent(s')
  {
    assert forall r :: r in s.inflight ==> r in s.disable || r == s.reorder;
    assert Cancelled(s) == map[];
    var s' := Saving(s, order, toggles, nextId);
    assert s'.sent == s.sent && forall k :: 0 <= k < |s.orders| ==> s'.orders[k] == s.orders[k];
  }

  lemma ToggleDoneKeeps(s: State, requestId: int)
    requires Inv(s) && requestId in s.inflight && s.inflight[requestId].Toggle?
    ensures var s' := s.(disable := s.disable - {requestId}, inflight := s.inflight - {requestId});
      if s'.disable == {} then ReadyToSend(s') else Inv(s')
  {
    assert requestId in s.disable;
  }

  lemma SaveKeepsInv(s: State, order: seq<SetId>, toggles: set<int>, nextId: int)
    requires Inv(s) && Enabled(s, Save(order, toggles, nextId))
    ensures Inv(Step(s, Save(order, toggles, nextId)))
  {
    SavingKeeps(s, order, toggles, nextId);
    hide SentInTurn, InFlight, Saving, SaveOrder;
    if toggles == {} {
      SavingFacts(s, order, toggles, nextId);
      SaveOrderKeepsInv(Saving(s, order, toggles, nextId));
    } else {
      SavingFacts(s, order, toggles, nextId);
    }
  }

  lemma SavingFacts(s: State, order: seq<SetId>, toggles: set<int>, nextId: int)
    ensures Saving(s, order, toggles, nextId).orders == s.orders + [order]
    ensures Saving(s, order, toggles, nextId).disable == toggles
  {
  }

  lemma ToggleKeepsInv(s: State, requestId: int)
    requires Inv(s) && requestId in s.inflight && s.inflight[requestId].Toggle?
    ensures Inv(Disenabled(s, requestId, s.inflight[requestId].save))
  {
    var s' := s.(disable := s.disable - {requestId}, inflight := s.inflight - {requestId});
    ToggleDoneKeeps(s, requestId);
    hide SentInTurn, SaveOrder;
    if s'.disable == {} {
      SaveOrderKeepsInv(s');
    }
  }

  lemma ReorderDoneKeepsInv(s: State, requestId: int)
    requires Inv(s) && requestId in s.inflight && s.inflight[requestId].Reorder?
    ensures Inv(s.(reorder := 0, inflight := s.inflight - {requestId}))
  {
    hide SentInTurn;
    assert SentInTurn(s.(reorder := 0, inflight := s.inflight - {requestId})) by { SentSame(s, requestId); }
  }

  lemma SentSame(s: State, requestId: int)
    requires SentInTurn(s)
    ensures SentInTurn(s.(reorder := 0, inflight := s.inflight - {requestId}))
  {
  }

  lemma StepKeepsInv(s: State, e: Event)
    requires Inv(s) && Enabled(s, e)
    ensures Inv(Step(s, e))
  {
    hide SentInTurn, InFlight, SaveOrder, SentWhenToggled;
    match e
    case Save(order, toggles, nextId) => SaveKeepsInv(s, order, toggles, nextId);
    case Complete(requestId) =>
      if s.inflight[requestId].Toggle? {
        ToggleKeepsInv(s, requestId);
      } else {
        ReorderDoneKeepsInv(s, requestId);
      }
  }

  /** A step sends at most one reorder request: the latest save's, with no toggle of it outstanding. */
  lemma StepSendsLatestWhenIdle(s: State, e: Event)
    requires Inv(s) && Enabled(s, e)
    ensures var s' := Step(s, e);
      s'.sent != s.sent ==>
        (s'.disable == {} && s'.orders != [] && s'.sent == s.sent + [Sent(|s'.orders| - 1, s'.orders[|s'.orders| - 1])])
  {
  }

  ghost predicate IsRun(s: State, es: seq<Event>)
    requires Inv(s)
    decreases |es|
  {
    es == [] || (Enabled(s, es[0]) && (StepKeepsInv(s, es[0]); IsRun(Step(s, es[0]), es[1..])))
  }

  ghost function After(s: State, es: seq<Event>): (s': State)
    requires Inv(s) && IsRun(s, es)
    ensures Inv(s')
    decreases |es|
  {
    if es == [] then s
    else
      StepKeepsInv(s, es[0]);
      After(Step(s, es[0]), es[1..])
  }

  function CountSaves(es: seq<Event>): nat {
    if es == [] then 0 else (if es[0].Save? then 1 else 0) + CountSaves(es[1..])
  }

  lemma {:induction false} SavesAreCounted(s: State, es: seq<Event>)
    requires Inv(s) && IsRun(s, es)
    ensures |After(s, es).orders| == |s.orders| + CountSaves(es) && s.orders <= After(s, es).orders
    decreases |es|
  {
    if es != [] {
      StepKeepsInv(s, es[0]);
      SavesAreCounted(Step(s, es[0]), es[1..]);
    }
    hide Inv;
  }

  /**
   * Over any run: each save's order is sent at most once, and the last save's order has been sent
   * exactly when all its installs and uninstalls are over and it has two sets or more.
   */
  lemma ReorderedOnceAndLast(es: seq<Event>)
    requires Inv(START) && IsRun(START, es)
    ensures var s := After(START, es);
      && |s.orders| == CountSaves(es)
      && (forall i, j :: 0 <= i < |s.sent| && 0 <= j < |s.sent| && s.sent[i].save == s.sent[j].save ==> i == j)
      && (forall i :: 0 <= i < |s.sent| ==> s.sent[i].save < |s.orders| && s.sent[i].order == s.orders[s.sent[i].save])
      && (s.orders != [] ==>
        var last := |s.orders| - 1;
        (Sent(last, s.orders[last]) in s.sent <==> s.disable == {} && |s.orders[last]| >= 2))
  {
    var s := After(START, es);
    SavesAreCounted(START, es);
    if s.orders != [] && Sent(|s.orders| - 1, s.orders[|s.orders| - 1]) in s.sent {
      var i :| 0 <= i < |s.sent| && s.sent[i] == Sent(|s.orders| - 1, s.orders[|s.orders| - 1]);
      assert i == |s.sent| - 1;
    }
    if LatestSent(s) {
      assert s.sent[|s.sent| - 1] in s.sent;
    }
  }
}
