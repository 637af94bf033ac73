/** Blocking and unblocking peers: requests noted per peer, callbacks that wait for them, and the list shown. */
module BlockedPeers {
  import opened Basics

  datatype Peer = Peer(id: int)
  type Callback = int

  /** What is stored for a peer: its latest request, and who waits for it. */
  datatype Entry = Entry(requestId: int, blocking: bool, callbacks: seq<Callback>)

  datatype Request = Request(peer: Peer, blocking: bool)

  datatype Item = Item(id: Peer, date: int)
  datatype Slice = Slice(list: seq<Item>, total: int)
  datatype Fired = Fired(callback: Callback, success: bool)

  type Entries = map<Peer, Entry>

  datatype State = State(
    entries: Entries,
    inflight: map<int, Request>,
    nextId: int,
    blocked: set<Peer>,            // peer->isBlocked()
    slice: Option<Slice>,
    changes: seq<Slice>,           // the slices announced
    accepted: multiset<Callback>,
    fired: seq<Fired>)

  const START := State(map[], map[], 1, {}, None, [], multiset{}, [])

  datatype Event =
    | Block(peer: Peer)
    | Unblock(peer: Peer, done: seq<Callback>, force: bool)  // at most one callback
    | Complete(requestId: int, ok: bool, now: int)
    | SetBlocked(peer: Peer, isBlocked: bool)                // an update from elsewhere
    | Loaded(count: int, list: seq<Item>)                    // the reply to `reload`

  predicate Enabled(s: State, e: Event) {
    match e
    case Unblock(_, done, _) => |done| <= 1
    case Complete(requestId, _, _) => requestId in s.inflight
    case _ => true
  }

  function Answer(callbacks: seq<Callback>, success: bool): seq<Fired> {
    if callbacks == [] then [] else [Fired(callbacks[0], success)] + Answer(callbacks[1..], success)
  }

  function Callbacks(fired: seq<Fired>): seq<Callback> {
    if fired == [] then [] else [fired[0].callback] + Callbacks(fired[1..])
  }

  /** `_blockRequests.take(peer)`, and its callbacks are answered. */
  function Take(s: State, peer: Peer, success: bool): State {
    if peer !in s.entries then s
    else s.(entries := s.entries - {peer}, fired := s.fired + Answer(s.entries[peer].callbacks, success))
  }

  predicate AlreadySent(s: State, peer: Peer, blocking: bool) {
    peer in s.entries && s.entries[peer].blocking == blocking
  }

  /** One more to wait for the request that is already sent, or a request of the other kind instead. */
  function Send(s: State, peer: Peer, blocking: bool, done: seq<Callback>): State {
    if AlreadySent(s, peer, blocking) then
      var e := s.entries[peer];
      s.(entries := s.entries[peer := e.(callbacks := e.callbacks + done)], accepted := s.accepted + multiset(done))
    else
      var t := Take(s, peer, false);
      t.(entries := t.entries[peer := Entry(s.nextId, blocking, done)],
         inflight := s.inflight[s.nextId := Request(peer, blocking)],
         nextId := s.nextId + 1, accepted := s.accepted + multiset(done))
  }

  function WithPeer(slice: Slice, peer: Peer, now: int): Slice {
    Slice([Item(peer, now)] + slice.list, slice.total + 1)
  }

  function EraseFirst(list: seq<Item>, peer: Peer): seq<Item> {
    if list == [] then []
    else if list[0].id == peer then list[1..]
    else [list[0]] + EraseFirst(list[1..], peer)
  }

  function WithoutPeer(slice: Slice, peer: Peer): Slice {
    var list := EraseFirst(slice.list, peer);
    Slice(list, if slice.total > |list| then slice.total - 1 else slice.total)
  }

  function Changed(s: State, slice: Slice): State { s.(slice := Some(slice), changes := s.changes + [slice]) }

  /** `TLToSlice`. */
  function ToSlice(count: int, list: seq<Item>): Slice { Slice(list, Max(count, |list|)) }

  /** The completed request's effect on the peer and the list. */
  function Applied(s: State, r: Request, now: int): State {
    var t := s.(blocked := if r.blocking then s.blocked + {r.peer} else s.blocked - {r.peer});
    if s.slice.None? then t
    else Changed(t, if r.blocking then WithPeer(s.slice.value, r.peer, now) else WithoutPeer(s.slice.value, r.peer))
  }

  function Step(s: State, e: Event): State
    requires Enabled(s, e)
  {
    match e
    case Block(peer) => if peer in s.blocked then s else Send(s, peer, true, [])
    case Unblock(peer, done, force) => if !force && peer !in s.blocked then s else Send(s, peer, false, done)
    case Complete(requestId, ok, now) =>
      var r := s.inflight[requestId];
      var t := s.(inflight := s.inflight - {requestId});
      if ok then Take(Applied(t, r, now), r.peer, !r.blocking) else Take(t, r.peer, false)
    case SetBlocked(peer, isBlocked) => s.(blocked := if isBlocked then s.blocked + {peer} else s.blocked - {peer})
    case Loaded(count, list) =>
      var slice := ToSlice(count, list);
      if s.slice == Some(slice) then s else Changed(s, slice)
  }

  // ---------- the callbacks that wait ----------

  ghost function Waiting(entries: Entries): multiset<Callback>
    decreases |entries|
  {
    if entries.Keys == {} then multiset{}
    else
      var p :| p in entries.Keys;
      multiset(entries[p].callbacks) + Waiting(entries - {p})
  }

  /** Any peer may be counted first. */
  lemma {:induction false} WaitingAt(entries: Entries, p: Peer)
    requires p in entries
    ensures Waiting(entries) == multiset(entries[p].callbacks) + Waiting(entries - {p})
    decreases |entries|
  {
    assert entries.Keys != {};
    var q :| q in entries.Keys && Waiting(entries) == multiset(entries[q].callbacks) + Waiting(entries - {q});
    hide Waiting;
    if q != p {
      Smaller(entries, q);
      Smaller(entries, p);
      WaitingAt(entries - {q}, p);
      WaitingAt(entries - {p}, q);
      assert entries - {q} - {p} == entries - {p} - {q};
    }
  }

  lemma Smaller(entries: Entries, p: Peer)
    requires p in entries
    ensures |entries - {p}| < |entries|
  {
    assert (entries - {p}).Keys == entries.Keys - {p};
  }

  lemma WaitingSet(entries: Entries, p: Peer, e: Entry)
    ensures Waiting(entries[p := e]) == multiset(e.callbacks) + Waiting(entries - {p})
  {
    WaitingAt(entries[p := e], p);
    assert entries[p := e] - {p} == entries - {p};
  }

  lemma {:induction false} CallbacksAppend(a: seq<Fired>, b: seq<Fired>)
    ensures Callbacks(a + b) == Callbacks(a) + Callbacks(b)
  {
    if a == [] {
      assert a + b == b;
    } else {
      assert (a + b)[1..] == a[1..] + b;
      CallbacksAppend(a[1..], b);
    }
  }

  lemma {:induction false} AnswerCallbacks(callbacks: seq<Callback>, success: bool)
    ensures Callbacks(Answer(callbacks, success)) == callbacks
    ensures forall f :: f in Answer(callbacks, success) ==> f.success == success
  {
    if callbacks != [] {
      AnswerCallbacks(callbacks[1..], success);
      assert Answer(callbacks, success)[1..] == Answer(callbacks[1..], success);
    }
  }

  // ---------- what every run keeps ----------

  /** Every accepted callback waits in an entry or has been answered, once. */
  ghost predicate Conserved(s: State) { s.accepted == Waiting(s.entries) + multiset(Callbacks(s.fired)) }

  /** A stored entry's own request is in flight. */
  ghost predicate OwnInFlight(s: State) {
    forall p :: p in s.entries ==>
      && s.entries[p].requestId in s.inflight
      && s.inflight[s.entries[p].requestId] == Request(p, s.entries[p].blocking)
  }

  ghost predicate SliceOk(s: State) {
    && (s.slice.Some? ==> s.slice.value.total >= |s.slice.value.list|)
    && forall i :: 0 <= i < |s.changes| ==> s.changes[i].total >= |s.changes[i].list|
  }

  ghost predicate Inv(s: State) {
    && (forall r :: r in s.inflight ==> 0 < r < s.nextId) && 0 < s.nextId
    && OwnInFlight(s) && Conserved(s) && SliceOk(s)
  }

  lemma StartKeepsInv()
    ensures Inv(START)
  {
  }

  lemma TakeConserves(s: State, peer: Peer, success: bool)
    requires Conserved(s)
    ensures Conserved(Take(s, peer, success))
  {
    if peer in s.entries {
      var callbacks := s.entries[peer].callbacks;
      WaitingAt(s.entries, peer);
      AnswerCallbacks(callbacks, success);
      CallbacksAppend(s.fired, Answer(callbacks, success));
    }
  }

  lemma SendConserves(s: State, peer: Peer, blocking: bool, done: seq<Callback>)
    requires Conserved(s)
    ensures Conserved(Send(s, peer, blocking, done))
  {
    hide Callbacks, Answer;
    if AlreadySent(s, peer, blocking) {
      var e := s.entries[peer];
      WaitingAt(s.entries, peer);
      WaitingSet(s.entries, peer, e.(callbacks := e.callbacks + done));
    } else {
      TakeConserves(s, peer, false);
      var t := Take(s, peer, false);
      assert t.entries - {peer} == t.entries;
      WaitingSet(t.entries, peer, Entry(s.nextId, blocking, done));
    }
  }

  lemma {:induction false} EraseShortens(list: seq<Item>, peer: Peer)
    ensures |EraseFirst(list, peer)| <= |list| <= |EraseFirst(list, peer)| + 1
    ensures |EraseFirst(list, peer)| == |list| <==> forall i :: 0 <= i < |list| ==> list[i].id != peer
  {
    if list != [] && list[0].id != peer {
      EraseShortens(list[1..], peer);
      assert forall i :: 0 < i < |list| ==> list[i] == list[1..][i - 1];
    }
  }

  lemma AppliedKeepsSlice(s: State, r: Request, now: int)
    requires SliceOk(s)
    ensures SliceOk(Applied(s, r, now))
  {
    if s.slice.Some? {
      EraseShortens(s.slice.value.list, r.peer);
    }
  }

  lemma TakeKeepsOwn(s: State, peer: Peer, success: bool)
    requires OwnInFlight(s)
    ensures OwnInFlight(Take(s, peer, success))
  {
  }

  lemma SendKeepsOwn(s: State, peer: Peer, blocking: bool, done: seq<Callback>)
    requires OwnInFlight(s) && forall r :: r in s.inflight ==> 0 < r < s.nextId
    ensures OwnInFlight(Send(s, peer, blocking, done))
  {
    TakeKeepsOwn(s, peer, false);
    hide Answer;
  }

  lemma SendKeepsInv(s: State, peer: Peer, blocking: bool, done: seq<Callback>)
    requires Inv(s)
    ensures Inv(Send(s, peer, blocking, done))
  {
    hide Conserved, OwnInFlight, Answer, SliceOk;
    SendConserves(s, peer, blocking, done);
    SendKeepsOwn(s, peer, blocking, done);
    SameKept(s, Send(s, peer, blocking, done));
  }

  /** A completed request is no longer in flight, and the peer's entry, own or not, goes with it. */
  lemma CompleteKeepsOwn(s: State, e: Event)
    requires OwnInFlight(s) && e.Complete? && Enabled(s, e)
    ensures OwnInFlight(Step(s, e))
  {
    var r := s.inflight[e.requestId];
    forall p | p in s.entries && p != r.peer ensures s.entries[p].requestId != e.requestId {
      assert s.inflight[s.entries[p].requestId].peer == p;
    }
    hide Answer, WithPeer, WithoutPeer;
  }

  lemma CompleteKeepsInv(s: State, e: Event)
    requires Inv(s) && e.Complete? && Enabled(s, e)
    ensures Inv(Step(s, e))
  {
    hide Conserved, SliceOk, OwnInFlight, Answer;
    var r := s.inflight[e.requestId];
    var t := s.(inflight := s.inflight - {e.requestId});
    CompleteKeepsOwn(s, e);
    var u := if e.ok then Applied(t, r, e.now) else t;
    SameKept(s, t);
    AppliedKeepsSlice(t, r, e.now);
    SameKept(t, Applied(t, r, e.now));
    TakeConserves(u, r.peer, e.ok && !r.blocking);
    var s' := Step(s, e);
    assert s' == Take(u, r.peer, e.ok && !r.blocking);
    SameKept(u, s');
    assert s'.inflight == t.inflight && s'.nextId == s.nextId;
  }

  lemma SameKept(s: State, t: State)
    ensures s.entries == t.entries && s.fired == t.fired && s.accepted == t.accepted && Conserved(s) ==> Conserved(t)
    ensures s.slice == t.slice && s.changes == t.changes && SliceOk(s) ==> SliceOk(t)
  {
  }

  lemma StepKeepsInv(s: State, e: Event)
    requires Inv(s) && Enabled(s, e)
    ensures Inv(Step(s, e))
  {
    match e
    case Block(peer) => SendKeepsInv(s, peer, true, []);
    case Unblock(peer, done, _) => SendKeepsInv(s, peer, false, done);
    case Complete(_, _, _) => CompleteKeepsInv(s, e);
    case SetBlocked(_, _) =>
    case Loaded(_, _) =>
  }

  ghost predicate IsRun(s: State, es: seq<Event>)
    decreases |es|
  {
    es == [] || (Enabled(s, es[0]) && IsRun(Step(s, es[0]), es[1..]))
  }

  ghost function After(s: State, es: seq<Event>): State
    requires IsRun(s, es)
    decreases |es|
  {
    if es == [] then s else After(Step(s, es[0]), es[1..])
  }

  lemma {:induction false} RunKeepsInv(s: State, es: seq<Event>)
    requires Inv(s) && IsRun(s, es)
    ensures Inv(After(s, es))
    decreases |es|
  {
    hide Inv, Step;
    if es != [] {
      StepKeepsInv(s, es[0]);
      RunKeepsInv(Step(s, es[0]), es[1..]);
    }
  }

  /** Once nothing is in flight every accepted callback has been answered, as often as it was accepted. */
  lemma QuietMeansAllAnswered(es: seq<Event>)
    requires IsRun(START, es) && After(START, es).inflight == map[]
    ensures After(START, es).entries == map[]
    ensures multiset(Callbacks(After(START, es).fired)) == After(START, es).accepted
  {
    StartKeepsInv();
    RunKeepsInv(START, es);
    var s := After(START, es);
    assert s.entries.Keys == {};
  }

  // ---------- the list ----------

  /** Blocking a peer and unblocking it again restores the list and the total. */
  lemma BlockThenUnblockRestores(slice: Slice, peer: Peer, now: int)
    requires slice.total >= |slice.list|
    ensures WithoutPeer(WithPeer(slice, peer, now), peer) == slice
  {
    assert ([Item(peer, now)] + slice.list)[1..] == slice.list;
  }

  // ---------- whose answer a callback gets ----------

  /** Only a done Unblock answers a callback with success, and then the peer is not blocked. */
  lemma SuccessMeansUnblocked(s: State, e: Event, i: nat)
    requires Enabled(s, e) && |s.fired| <= i < |Step(s, e).fired| && Step(s, e).fired[i].success
    ensures e.Complete? && e.ok && !s.inflight[e.requestId].blocking
    ensures s.inflight[e.requestId].peer !in Step(s, e).blocked
  {
    match e {
      case Block(peer) => AnsweredAlike(s, peer, false);
      case Unblock(peer, _, _) => AnsweredAlike(s, peer, false);
      case Complete(requestId, ok, _) =>
        var r := s.inflight[requestId];
        AnsweredAlike(s, r.peer, ok && !r.blocking);
      case _ =>
    }
    hide Answer;
  }

  lemma AnsweredAlike(s: State, peer: Peer, success: bool)
    ensures s.fired <= Take(s, peer, success).fired
    ensures forall i :: |s.fired| <= i < |Take(s, peer, success).fired| ==>
      Take(s, peer, success).fired[i].success == success
  {
    if peer in s.entries {
      var answers := Answer(s.entries[peer].callbacks, success);
      AnswerCallbacks(s.entries[peer].callbacks, success);
      assert forall k :: 0 <= k < |answers| ==> answers[k] in answers;
    }
  }

  /** A completed request answers the callbacks of whatever entry its peer has by then. */
  lemma CompletionAnswersStoredEntry(s: State, e: Event)
    requires Enabled(s, e) && e.Complete?
    ensures var r := s.inflight[e.requestId];
      && r.peer !in Step(s, e).entries
      && Step(s, e).fired == s.fired
        + if r.peer in s.entries then Answer(s.entries[r.peer].callbacks, e.ok && !r.blocking) else []
  {
  }

  /** Each peer's one request in flight is that of its stored entry. */
  ghost predicate NoOverlap(s: State) {
    forall r :: r in s.inflight ==> s.inflight[r].peer in s.entries && s.entries[s.inflight[r].peer].requestId == r
  }

  /** The call asks for the other kind while a request of one kind is stored. */
  predicate Switches(s: State, e: Event) {
    match e
    case Block(peer) => peer !in s.blocked && peer in s.entries && !s.entries[peer].blocking
    case Unblock(peer, _, force) => (force || peer in s.blocked) && peer in s.entries && s.entries[peer].blocking
    case _ => false
  }

  /** Requests for one peer begin to overlap exactly when a call switches from one kind to the other. */
  lemma OverlapsExactlyOnSwitch(s: State, e: Event)
    requires Inv(s) && NoOverlap(s) && Enabled(s, e)
    ensures NoOverlap(Step(s, e)) <==> !Switches(s, e)
  {
    hide Conserved, SliceOk, Answer, NoOverlap;
    match e
    case Block(peer) => SendAlone(s, peer, true, []);
    case Unblock(peer, done, _) => SendAlone(s, peer, false, done);
    case Complete(_, _, _) => CompleteAlone(s, e);
    case SetBlocked(_, _) => SameAlone(s, Step(s, e));
    case Loaded(_, _) => SameAlone(s, Step(s, e));
  }

  lemma SameAlone(s: State, t: State)
    requires s.entries == t.entries && s.inflight == t.inflight
    ensures NoOverlap(s) == NoOverlap(t)
  {
  }

  lemma SendAlone(s: State, peer: Peer, blocking: bool, done: seq<Callback>)
    requires Inv(s) && NoOverlap(s)
    ensures NoOverlap(Send(s, peer, blocking, done)) <==> (peer in s.entries ==> s.entries[peer].blocking == blocking)
  {
    hide Conserved, SliceOk, Answer;
    var s' := Send(s, peer, blocking, done);
    if AlreadySent(s, peer, blocking) {
      assert NoOverlap(s');
    } else if peer in s.entries {
      var older := s.entries[peer].requestId;
      assert older in s.inflight && older in s'.inflight && s'.entries[peer].requestId == s.nextId;
    } else {
      assert NoOverlap(s');
    }
  }

  lemma CompleteAlone(s: State, e: Event)
    requires NoOverlap(s) && e.Complete? && Enabled(s, e)
    ensures NoOverlap(Step(s, e))
  {
    hide Answer, WithPeer, WithoutPeer;
    var r := s.inflight[e.requestId];
    assert forall o :: o in s.inflight && s.inflight[o].peer == r.peer ==> o == e.requestId;
  }

  /** While nothing overlaps, a completed request answers exactly the callbacks that waited for it. */
  lemma AloneAnswersItsOwn(s: State, e: Event)
    requires NoOverlap(s) && e.Complete? && Enabled(s, e)
    ensures var peer := s.inflight[e.requestId].peer;
      && peer in s.entries && s.entries[peer].requestId == e.requestId
      && Step(s, e).fired == s.fired + Answer(s.entries[peer].callbacks, e.ok && !s.inflight[e.requestId].blocking)
  {
  }

  // ---------- whole runs without a switch ----------

  ghost predicate NoSwitch(s: State, es: seq<Event>)
    requires IsRun(s, es)
    decreases |es|
  {
    es == [] || (!Switches(s, es[0]) && NoSwitch(Step(s, es[0]), es[1..]))
  }

  /** The callbacks a call adds to a request: the one it sends, or the one that is already sent. */
  function Joins(s: State, e: Event, r: int): seq<Callback> {
    match e
    case Unblock(peer, done, force) =>
      if !force && peer !in s.blocked then []
      else if (if AlreadySent(s, peer, false) then s.entries[peer].requestId else s.nextId) == r then done else []
    case _ => []
  }

  /** The callbacks that joined a request during a run, in order. */
  ghost function Joined(s: State, es: seq<Event>, r: int): seq<Callback>
    requires IsRun(s, es)
    decreases |es|
  {
    if es == [] then [] else Joins(s, es[0], r) + Joined(Step(s, es[0]), es[1..], r)
  }

  /** The callbacks waiting in the stored entry of a request in flight; none for a request not sent yet. */
  ghost function WaitingFor(s: State, r: int): seq<Callback>
    requires NoOverlap(s)
  {
    if r in s.inflight then s.entries[s.inflight[r].peer].callbacks else []
  }

  lemma SendJoins(s: State, peer: Peer, blocking: bool, done: seq<Callback>, r: int)
    requires Inv(s) && NoOverlap(s) && NoOverlap(Send(s, peer, blocking, done))
    requires r in Send(s, peer, blocking, done).inflight
    ensures WaitingFor(Send(s, peer, blocking, done), r) == WaitingFor(s, r)
      + if (if AlreadySent(s, peer, blocking) then s.entries[peer].requestId else s.nextId) == r then done else []
    ensures r in s.inflight ==> Send(s, peer, blocking, done).inflight[r] == s.inflight[r]
  {
    hide Conserved, SliceOk, Answer;
    assert WaitingFor(s, r) + [] == WaitingFor(s, r);
  }

  lemma OtherJoins(s: State, e: Event, r: int)
    requires NoOverlap(s) && Enabled(s, e) && !e.Block? && !e.Unblock? && NoOverlap(Step(s, e))
    requires r in Step(s, e).inflight
    ensures r in s.inflight && Step(s, e).inflight[r] == s.inflight[r]
    ensures WaitingFor(Step(s, e), r) == WaitingFor(s, r)
  {
    hide Answer, WithPeer, WithoutPeer, ToSlice;
  }

  lemma StepJoins(s: State, e: Event, r: int)
    requires Inv(s) && NoOverlap(s) && Enabled(s, e) && NoOverlap(Step(s, e))
    requires r in Step(s, e).inflight
    ensures WaitingFor(Step(s, e), r) == WaitingFor(s, r) + Joins(s, e, r)
    ensures r in s.inflight ==> Step(s, e).inflight[r] == s.inflight[r]
  {
    hide Inv, NoOverlap, Send, WaitingFor;
    assert WaitingFor(s, r) + [] == WaitingFor(s, r);
    match e
    case Block(peer) =>
      if peer !in s.blocked {
        SendJoins(s, peer, true, [], r);
      }
    case Unblock(peer, done, force) =>
      if force || peer in s.blocked {
        SendJoins(s, peer, false, done, r);
      }
    case _ => OtherJoins(s, e, r);
  }

  lemma IdsGrow(s: State, e: Event)
    requires Enabled(s, e)
    ensures Step(s, e).nextId >= s.nextId
    ensures forall r :: r in Step(s, e).inflight ==> r in s.inflight || (r == s.nextId && r < Step(s, e).nextId)
  {
    hide Answer, WithPeer, WithoutPeer;
  }

  lemma {:induction false} KeptThrough(s: State, es: seq<Event>, r: int)
    requires IsRun(s, es) && r in After(s, es).inflight
    ensures r in s.inflight || r >= s.nextId
    decreases |es|
  {
    hide Step, Enabled;
    if es != [] {
      KeptThrough(Step(s, es[0]), es[1..], r);
      IdsGrow(s, es[0]);
    }
  }

  /** Without switches requests never overlap, and a request's entry holds exactly the callbacks that joined it. */
  lemma {:induction false} RunCollectsJoins(s: State, es: seq<Event>, r: int)
    requires Inv(s) && NoOverlap(s) && IsRun(s, es) && NoSwitch(s, es)
    ensures Inv(After(s, es)) && NoOverlap(After(s, es))
    ensures r in After(s, es).inflight ==> WaitingFor(After(s, es), r) == WaitingFor(s, r) + Joined(s, es, r)
    decreases |es|
  {
    hide Step, Enabled, Inv, NoOverlap, Switches, Joins, WaitingFor;
    if es == [] {
      assert WaitingFor(s, r) + [] == WaitingFor(s, r);
    } else {
      var next := Step(s, es[0]);
      StepKeepsInv(s, es[0]);
      OverlapsExactlyOnSwitch(s, es[0]);
      RunCollectsJoins(next, es[1..], r);
      if r in After(s, es).inflight {
        KeptThrough(next, es[1..], r);
        OneStepJoins(s, es[0], r);
        assert WaitingFor(s, r) + Joins(s, es[0], r) + Joined(next, es[1..], r)
          == WaitingFor(s, r) + Joined(s, es, r);
      }
    }
  }

  /** The same for a request that is sent in a later step: nothing has joined it yet. */
  lemma OneStepJoins(s: State, e: Event, r: int)
    requires Inv(s) && NoOverlap(s) && Enabled(s, e) && !Switches(s, e) && NoOverlap(Step(s, e))
    requires r in Step(s, e).inflight || r >= Step(s, e).nextId
    ensures WaitingFor(Step(s, e), r) == WaitingFor(s, r) + Joins(s, e, r)
  {
    if r in Step(s, e).inflight {
      IdsGrow(s, e);
      StepJoins(s, e, r);
    } else {
      NotYetSent(s, e, r);
    }
  }

  lemma NotYetSent(s: State, e: Event, r: int)
    requires Inv(s) && Enabled(s, e) && r !in Step(s, e).inflight && r >= Step(s, e).nextId
    ensures r !in s.inflight && Joins(s, e, r) == []
  {
    IdsGrow(s, e);
    hide Conserved, SliceOk, Answer, WithPeer, WithoutPeer;
  }

  /**
   * In a run in which no call switches between blocking and unblocking while a request is stored, every
   * completion answers exactly the callbacks that joined its own request, in order, with its own outcome.
   */
  lemma EachAnswersItsOwn(es: seq<Event>, e: Event)
    requires IsRun(START, es) && NoSwitch(START, es) && e.Complete? && Enabled(After(START, es), e)
    ensures var s := After(START, es);
      Step(s, e).fired == s.fired + Answer(Joined(START, es, e.requestId), e.ok && !s.inflight[e.requestId].blocking)
  {
    StartKeepsInv();
    RunCollectsJoins(START, es, e.requestId);
    assert [] + Joined(START, es, e.requestId) == Joined(START, es, e.requestId);
    AloneAnswersItsOwn(After(START, es), e);
    hide Step, Inv;
  }

  /**
   * A stale completion: a block is switched to an unblock, the block completes, and the unblock's
   * callback is told of failure; when the unblock itself then succeeds, nobody is told.
   */
  lemma StaleBlockAnswersUnblock(s: State, peer: Peer, c: Callback, now: int, s1: State, s2: State, s3: State)
    requires Inv(s) && peer in s.entries && s.entries[peer].blocking
    requires s1 == Step(s, Unblock(peer, [c], true))
    requires s.entries[peer].requestId in s1.inflight && s2 == Step(s1, Complete(s.entries[peer].requestId, true, now))
    requires s.nextId in s2.inflight && s3 == Step(s2, Complete(s.nextId, true, now))
    ensures s2.fired == s1.fired + [Fired(c, false)] && peer in s2.blocked
    ensures peer !in s3.blocked && s3.fired == s2.fired
  {
    assert s1.entries[peer] == Entry(s.nextId, false, [c]);
    assert [c][1..] == [];
    assert Answer([c], false) == [Fired(c, false)];
    hide Conserved, SliceOk, Answer, WithPeer, WithoutPeer, Changed, OwnInFlight, Waiting;
  }
}
