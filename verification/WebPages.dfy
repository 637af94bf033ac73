/** Pending web page previews: delayed, asked for in one request per channel, and taken out by the reply. */
module WebPages {
  import opened Basics
  import opened Locations

  datatype Page = Page(id: int)

  /** Seconds. */
  type TimeId = int32

  /** A message that shows the page: the page is asked for by asking for this message. */
  datatype Item = Item(where: Where, id: int)

  datatype Pending = Pending(page: Page, requestId: int)

  /** One server request: the messages it asks for, in order, and the pages it is for. */
  datatype Ask = Ask(where: Where, ids: seq<int>, pages: seq<Page>)

  datatype Timer = Idle | At(deadline: int)

  datatype State = State(
    pending: seq<Pending>,
    till: map<Page, TimeId>,      // pendingTill of the pages; 0 when not in the map
    failed: set<Page>,
    timer: Timer,
    inflight: set<int>,
    asked: map<int, Ask>,      // every request ever sent
    nextId: int,
    stranded: set<Page>)       // due at the last resolve, but without a message to ask for

  const START := State([], map[], {}, Idle, {}, map[], 1, {})

  datatype Event =
    | Delay(page: Page, t: TimeId, now: int)
    | Clear(page: Page)
    | ClearAll
    // sent: the tables asked, in the order of the requests
    | Resolve(t: TimeId, now: int, items: map<Page, Item>, sent: seq<Where>)
    // applied: pendingTill set by the reply
    | Got(requestId: int, applied: map<Page, TimeId>)
    | Fail(requestId: int)

  const DAY := 86400

  /** Milliseconds until a date, in 32 bits: the difference first, then the product. */
  function MsLeft(till: TimeId, t: TimeId): TimeId { Wrapped(Wrapped(till - t) * 1000) }

  function Till(till: map<Page, TimeId>, page: Page): TimeId { if page in till then till[page] else 0 }

  predicate IsPending(pending: seq<Pending>, page: Page) {
    exists i :: 0 <= i < |pending| && pending[i].page == page
  }

  // ---------- what one resolve asks for ----------

  predicate IsDue(p: Pending, t: TimeId, till: map<Page, TimeId>) {
    p.requestId <= 0 && Till(till, p.page) <= t
  }

  /** The entries that go into a request. */
  predicate IsAsked(p: Pending, t: TimeId, till: map<Page, TimeId>, items: map<Page, Item>) {
    IsDue(p, t, till) && p.page in items
  }

  predicate IsAskedIn(p: Pending, t: TimeId, till: map<Page, TimeId>, items: map<Page, Item>, w: Where) {
    IsAsked(p, t, till, items) && items[p.page].where == w
  }

  /** The pages asked for in one table, in the order of the entries. */
  function AskedIn(
    pending: seq<Pending>, t: TimeId, till: map<Page, TimeId>, items: map<Page, Item>, w: Where): (r: seq<Page>)
    ensures forall p :: p in r ==> p in items && items[p].where == w && Till(till, p) <= t
    decreases |pending|
  {
    if pending == [] then []
    else
      var n := |pending| - 1;
      var p := pending[n];
      AskedIn(pending[..n], t, till, items, w)
      + (if IsAskedIn(p, t, till, items, w) then [p.page] else [])
  }

  function ItemIds(pages: seq<Page>, items: map<Page, Item>): (r: seq<int>)
    requires forall p :: p in pages ==> p in items
    ensures |r| == |pages|
  {
    if pages == [] then []
    else
      var n := |pages| - 1;
      assert pages[n] in pages;
      ItemIds(pages[..n], items) + [items[pages[n]].id]
  }

  /** The soonest time left among the entries that are not due yet. */
  function TimeLeft(pending: seq<Pending>, t: TimeId, till: map<Page, TimeId>): int {
    if pending == [] then INT_MAX
    else
      var n := |pending| - 1;
      var rest := TimeLeft(pending[..n], t, till);
      if pending[n].requestId <= 0 && Till(till, pending[n].page) > t
      then Min(rest, Till(till, pending[n].page) - t) else rest
  }

  function Index(sent: seq<Where>, w: Where): (k: nat)
    requires w in sent
    ensures k < |sent| && sent[k] == w
  {
    if sent[0] == w then 0 else 1 + Index(sent[1..], w)
  }

  function Marked(
    pending: seq<Pending>, t: TimeId, till: map<Page, TimeId>, items: map<Page, Item>, sent: seq<Where>,
    nextId: int): (r: seq<Pending>)
    ensures |r| == |pending|
  {
    seq(|pending|, i requires 0 <= i < |pending| =>
      if IsAsked(pending[i], t, till, items) && items[pending[i].page].where in sent
      then Pending(pending[i].page, nextId + Index(sent, items[pending[i].page].where))
      else pending[i])
  }

  /** Every table that has something to ask for is asked once, the common one first. */
  ghost predicate AsksOnce(s: State, t: TimeId, items: map<Page, Item>, sent: seq<Where>) {
    && (forall j, k :: 0 <= j < k < |sent| ==> sent[j] != sent[k])
    && (Common in sent ==> sent[0] == Common)
    && forall w :: w in sent <==> AskedIn(s.pending, t, s.till, items, w) != []
  }

  ghost predicate Enabled(s: State, e: Event) {
    match e
    case Resolve(t, now, items, sent) => t > 0 && AsksOnce(s, t, items, sent)
    case Got(requestId, _) => requestId in s.inflight
    case Fail(requestId) => requestId in s.inflight
    case _ => true
  }

  function AskFor(s: State, t: TimeId, items: map<Page, Item>, w: Where): Ask {
    var pages := AskedIn(s.pending, t, s.till, items, w);
    Ask(w, ItemIds(pages, items), pages)
  }

  /** Requests get the next ids in turn. */
  function NewAsks(s: State, t: TimeId, items: map<Page, Item>, sent: seq<Where>): map<int, Ask>
    decreases |sent|
  {
    if sent == [] then map[]
    else
      var n := |sent| - 1;
      NewAsks(s, t, items, sent[..n])[s.nextId + n := AskFor(s, t, items, sent[n])]
  }

  ghost function Stranded(s: State, t: TimeId, items: map<Page, Item>): set<Page> {
    set i | 0 <= i < |s.pending| && IsDue(s.pending[i], t, s.till) && s.pending[i].page !in items :: s.pending[i].page
  }

  function Without(pending: seq<Pending>, requestId: int): seq<Pending> {
    if pending == [] then []
    else (if pending[0].requestId == requestId then [] else [pending[0]]) + Without(pending[1..], requestId)
  }

  function WithoutPage(pending: seq<Pending>, page: Page): seq<Pending> {
    if pending == [] then []
    else (if pending[0].page == page then [] else [pending[0]]) + WithoutPage(pending[1..], page)
  }

  /** The pages of a request that are still pending, and were not given up before. */
  function GivenUp(pending: seq<Pending>, requestId: int, till: map<Page, TimeId>): set<Page> {
    set p | p in pending && p.requestId == requestId && Till(till, p.page) > 0 :: p.page
  }

  function Zeros(pages: set<Page>): map<Page, TimeId> { map p | p in pages :: 0 }

  ghost function Step(s: State, e: Event): State
    requires Enabled(s, e)
  {
    match e
    case Delay(page, t, now) =>
      if page in s.failed || Till(s.till, page) == 0 then s
      else
        var left := MsLeft(Till(s.till, page), t);
        s.(pending := if IsPending(s.pending, page) then s.pending else s.pending + [Pending(page, 0)],
           timer := if s.timer == Idle || left <= s.timer.deadline - now
                    then At(now + (if left < 0 then 0 else left) + 1) else s.timer)
    case Clear(page) =>
      var rest := WithoutPage(s.pending, page);
      s.(pending := rest, timer := if rest == [] then Idle else s.timer)
    case ClearAll => s.(pending := [], timer := Idle)
    case Resolve(t, now, items, sent) =>
      var m := TimeLeft(s.pending, t, s.till);
      s.(pending := Marked(s.pending, t, s.till, items, sent, s.nextId),
         timer := if m < INT_MAX then At(now + Min(m, DAY) * 1000) else Idle,
         inflight := s.inflight + NewAsks(s, t, items, sent).Keys,
         asked := s.asked + NewAsks(s, t, items, sent),
         nextId := s.nextId + |sent|,
         stranded := Stranded(s, t, items))
    case Got(requestId, applied) =>
      var till := s.till + applied;
      var gone := GivenUp(s.pending, requestId, till);
      s.(pending := Without(s.pending, requestId),
         till := till + Zeros(gone),
         failed := s.failed + gone,
         inflight := s.inflight - {requestId})
    case Fail(requestId) => s.(inflight := s.inflight - {requestId})
  }

  // ---------- what every run keeps ----------

  ghost predicate Distinct(pending: seq<Pending>) {
    forall i, j :: 0 <= i < j < |pending| ==> pending[i].page != pending[j].page
  }

  /**
   * No temporary negative id is left, a positive one is that of a request that asked for the page,
   * and a page still to be asked for has a timer running unless the last resolve found no message for it.
   */
  ghost predicate EntryOk(s: State, p: Pending) {
    && p.requestId >= 0
    && (p.requestId > 0 ==> p.requestId in s.asked && p.page in s.asked[p.requestId].pages)
    && (p.requestId == 0 && p.page !in s.stranded ==> s.timer.At?)
  }

  ghost predicate RequestsOk(s: State) {
    && 0 < s.nextId
    && (forall r :: r in s.asked ==> 0 < r < s.nextId && s.asked[r].ids != [])
    && (forall r :: r in s.inflight ==> r in s.asked)
  }

  ghost predicate Inv(s: State) {
    && Distinct(s.pending)
    && (forall p :: p in s.pending ==> EntryOk(s, p))
    && RequestsOk(s)
  }

  lemma {:induction false} WithoutIs(pending: seq<Pending>, requestId: int)
    ensures forall p :: p in Without(pending, requestId) <==> p in pending && p.requestId != requestId
    ensures Distinct(pending) ==> Distinct(Without(pending, requestId))
  {
    if pending != [] {
      WithoutIs(pending[1..], requestId);
      var rest := Without(pending[1..], requestId);
      forall i | 0 <= i < |rest| ensures Distinct(pending) ==> rest[i].page != pending[0].page {
        assert rest[i] in pending[1..];
      }
    }
  }

  lemma {:induction false} WithoutPageIs(pending: seq<Pending>, page: Page)
    ensures forall p :: p in WithoutPage(pending, page) <==> p in pending && p.page != page
    ensures Distinct(pending) ==> Distinct(WithoutPage(pending, page))
  {
    if pending != [] {
      WithoutPageIs(pending[1..], page);
      var rest := WithoutPage(pending[1..], page);
      forall i | 0 <= i < |rest| ensures Distinct(pending) ==> rest[i].page != pending[0].page {
        assert rest[i] in pending[1..];
      }
    }
  }

  lemma {:induction false} AskedInExactly(
    pending: seq<Pending>, t: TimeId, till: map<Page, TimeId>, items: map<Page, Item>, w: Where)
    ensures forall i :: 0 <= i < |pending| && IsAskedIn(pending[i], t, till, items, w) ==>
      pending[i].page in AskedIn(pending, t, till, items, w)
  {
    if pending != [] {
      AskedInExactly(pending[..|pending| - 1], t, till, items, w);
    }
  }

  lemma {:induction false} NewAsksAre(s: State, t: TimeId, items: map<Page, Item>, sent: seq<Where>)
    ensures forall r :: r in NewAsks(s, t, items, sent) <==> s.nextId <= r < s.nextId + |sent|
    ensures forall r :: r in NewAsks(s, t, items, sent) ==>
      NewAsks(s, t, items, sent)[r] == AskFor(s, t, items, sent[r - s.nextId])
    decreases |sent|
  {
    hide AskFor;
    if sent != [] {
      var n := |sent| - 1;
      NewAsksAre(s, t, items, sent[..n]);
      var earlier, asks := NewAsks(s, t, items, sent[..n]), NewAsks(s, t, items, sent);
      assert asks == earlier[s.nextId + n := AskFor(s, t, items, sent[n])];
      assert forall r :: r in earlier ==> sent[..n][r - s.nextId] == sent[r - s.nextId];
    }
  }

  /** Every entry that is asked for gets the id of its own table's request. */
  lemma MarkedIds(s: State, t: TimeId, items: map<Page, Item>, sent: seq<Where>, i: nat)
    requires AsksOnce(s, t, items, sent) && i < |s.pending|
    ensures var p := s.pending[i];
      var q := Marked(s.pending, t, s.till, items, sent, s.nextId)[i];
      if IsAsked(p, t, s.till, items) then
        var asks := NewAsks(s, t, items, sent);
        && q.page == p.page && q.requestId in asks && s.nextId <= q.requestId < s.nextId + |sent|
        && asks[q.requestId] == AskFor(s, t, items, items[p.page].where)
        && p.page in asks[q.requestId].pages
      else q == p
  {
    hide AskedIn, ItemIds, NewAsks;
    NewAsksAre(s, t, items, sent);
    if IsAsked(s.pending[i], t, s.till, items) {
      AskedInExactly(s.pending, t, s.till, items, items[s.pending[i].page].where);
    }
  }

  lemma {:induction false} TimeLeftFound(pending: seq<Pending>, t: TimeId, till: map<Page, TimeId>, i: nat)
    requires i < |pending| && pending[i].requestId <= 0 && Till(till, pending[i].page) > t
    ensures TimeLeft(pending, t, till) <= Till(till, pending[i].page) - t
  {
    if i < |pending| - 1 {
      TimeLeftFound(pending[..|pending| - 1], t, till, i);
    }
  }

  lemma DelayKeepsInv(s: State, e: Event)
    requires Inv(s) && e.Delay?
    ensures Inv(Step(s, e))
  {
  }

  lemma ClearKeepsInv(s: State, page: Page)
    requires Inv(s)
    ensures Inv(Step(s, Clear(page)))
  {
    WithoutPageIs(s.pending, page);
  }

  /** One entry after a resolve. */
  lemma ResolvedEntry(s: State, e: Event, i: nat)
    requires e.Resolve? && Enabled(s, e) && i < |s.pending| && EntryOk(s, s.pending[i]) && RequestsOk(s)
    ensures var p, s' := s.pending[i], Step(s, e);
      && |s'.pending| == |s.pending| && s'.pending[i].page == p.page && EntryOk(s', s'.pending[i])
      && if IsAsked(p, e.t, s.till, e.items) then s.nextId <= s'.pending[i].requestId else s'.pending[i] == p
  {
    hide Marked, NewAsks, TimeLeft, Till, AsksOnce, AskFor;
    var Resolve(t, now, items, sent) := e;
    var p := s.pending[i];
    MarkedIds(s, t, items, sent, i);
    AsksDoNotMeet(s, t, items, sent);
    if p.requestId == 0 && Till(s.till, p.page) > t {
      TimeLeftFound(s.pending, t, s.till, i);
    }
  }

  lemma AsksDoNotMeet(s: State, t: TimeId, items: map<Page, Item>, sent: seq<Where>)
    requires AsksOnce(s, t, items, sent) && RequestsOk(s)
    ensures var asks := NewAsks(s, t, items, sent);
      var after := s.asked + asks;
      && (forall r :: r in s.asked ==> r in after && after[r] == s.asked[r])
      && (forall r :: r in asks ==> r >= s.nextId && r in after && after[r] == asks[r])
      && (forall r :: r in after ==> 0 < r < s.nextId + |sent| && after[r].ids != [])
      && (forall r :: r in s.inflight + asks.Keys ==> r in after)
  {
    hide AskedIn, ItemIds;
    hide NewAsks;
    NewAsksAre(s, t, items, sent);
    var asks := NewAsks(s, t, items, sent);
    forall r | r in asks ensures asks[r].ids != [] {
      assert sent[r - s.nextId] in sent;
    }
    var after := s.asked + asks;
    assert forall r :: r in asks ==> s.nextId <= r < s.nextId + |sent|;
    assert forall r :: r in s.asked ==> r !in asks;
    assert forall r :: r in after ==> after[r] == if r in asks then asks[r] else s.asked[r];
  }

  lemma ResolveKeepsRequests(s: State, e: Event)
    requires RequestsOk(s) && e.Resolve? && Enabled(s, e)
    ensures RequestsOk(Step(s, e))
    ensures forall r :: r in s.asked ==> r in Step(s, e).asked && Step(s, e).asked[r] == s.asked[r]
  {
    hide NewAsks, TimeLeft, Stranded, Marked, AsksOnce;
    AsksDoNotMeet(s, e.t, e.items, e.sent);
    var s' := Step(s, e);
    assert s'.nextId == s.nextId + |e.sent|;
    assert s'.asked == s.asked + NewAsks(s, e.t, e.items, e.sent);
    assert s'.inflight == s.inflight + NewAsks(s, e.t, e.items, e.sent).Keys;
  }

  lemma ResolveKeepsInv(s: State, e: Event)
    requires Inv(s) && e.Resolve? && Enabled(s, e)
    ensures Inv(Step(s, e))
  {
    var s' := Step(s, e);
    ResolveKeepsRequests(s, e);
    assert |s'.pending| == |s.pending|;
    forall i | 0 <= i < |s.pending|
      ensures s'.pending[i].page == s.pending[i].page
      ensures EntryOk(s', s'.pending[i])
    {
      ResolvedEntry(s, e, i);
    }
    hide Step, EntryOk, Enabled;
  }

  lemma GotKeepsInv(s: State, e: Event)
    requires Inv(s) && e.Got? && Enabled(s, e)
    ensures Inv(Step(s, e))
  {
    WithoutIs(s.pending, e.requestId);
  }

  lemma StepKeepsInv(s: State, e: Event)
    requires Inv(s) && Enabled(s, e)
    ensures Inv(Step(s, e))
  {
    match e
    case Delay(_, _, _) => DelayKeepsInv(s, e);
    case Clear(page) => ClearKeepsInv(s, page);
    case ClearAll =>
    case Resolve(_, _, _, _) => ResolveKeepsInv(s, e);
    case Got(_, _) => GotKeepsInv(s, e);
    case Fail(_) =>
  }

  ghost predicate IsRun(s: State, es: seq<Event>)
    decreases |es|
  {
    es == [] || (Enabled(s, es[0]) && IsRun(Step(s, es[0]), es[1..]))
  }

  ghost function After(s: State, es: seq<Event>): State
    requires IsRun(s, es)
    decreases |es|
  {
    if es == [] then s else After(Step(s, es[0]), es[1..])
  }

  lemma {:induction false} RunKeepsInv(s: State, es: seq<Event>)
    requires Inv(s) && IsRun(s, es)
    ensures Inv(After(s, es))
    decreases |es|
  {
    hide Inv, Step;
    if es != [] {
      StepKeepsInv(s, es[0]);
      RunKeepsInv(Step(s, es[0]), es[1..]);
    }
  }

  lemma StartKeepsInv()
    ensures Inv(START)
  {
  }

  lemma {:induction false} AsksAreKept(s: State, es: seq<Event>)
    requires Inv(s) && IsRun(s, es)
    ensures forall r :: r in s.asked ==> r in After(s, es).asked && After(s, es).asked[r] == s.asked[r]
    decreases |es|
  {
    if es != [] {
      var s' := Step(s, es[0]);
      StepKeepsInv(s, es[0]);
      if es[0].Resolve? {
        ResolveKeepsRequests(s, es[0]);
      }
      assert forall r :: r in s.asked ==> r in s'.asked && s'.asked[r] == s.asked[r];
      AsksAreKept(s', es[1..]);
    }
    hide Inv, Step;
  }

  // ---------- what a resolve and a reply do ----------

  /** After a resolve each due page with a message has the id of a new request whose list holds that message. */
  lemma ResolveAsksForDuePages(s: State, e: Event, i: nat)
    requires Inv(s) && e.Resolve? && Enabled(s, e) && i < |s.pending|
    ensures |Step(s, e).pending| == |s.pending|
    ensures var p, s' := s.pending[i], Step(s, e);
      var q := s'.pending[i];
      if p.requestId == 0 && Till(s.till, p.page) <= e.t && p.page in e.items then
        && q.page == p.page && q.requestId in s'.inflight && q.requestId !in s.asked && q.requestId in s'.asked
        && s'.asked[q.requestId].where == e.items[p.page].where
        && e.items[p.page].id in s'.asked[q.requestId].ids
      else q == p
  {
    hide Marked, NewAsks, TimeLeft, Till, AsksOnce, Stranded, ItemIds;
    var p := s.pending[i];
    assert EntryOk(s, p);
    MarkedIds(s, e.t, e.items, e.sent, i);
    AsksDoNotMeet(s, e.t, e.items, e.sent);
    if IsAsked(p, e.t, s.till, e.items) {
      var pages := AskedIn(s.pending, e.t, s.till, e.items, e.items[p.page].where);
      var k :| 0 <= k < |pages| && pages[k] == p.page;
      ItemIdAt(pages, e.items, k);
    }
  }

  lemma {:induction false} ItemIdAt(pages: seq<Page>, items: map<Page, Item>, k: nat)
    requires (forall p :: p in pages ==> p in items) && k < |pages|
    ensures pages[k] in pages && ItemIds(pages, items)[k] == items[pages[k]].id
  {
    if k < |pages| - 1 {
      ItemIdAt(pages[..|pages| - 1], items, k);
    }
  }

  /** A reply removes exactly the pages of its own request, and none of them stays pending. */
  lemma GotRemovesExactlyItsPages(s: State, e: Event, p: Pending)
    requires Inv(s) && e.Got? && Enabled(s, e) && p in s.pending
    ensures var s' := Step(s, e);
      if p.requestId != e.requestId then p in s'.pending
      else
        && !IsPending(s'.pending, p.page) && p.page in s.asked[e.requestId].pages
        && Till(s'.till, p.page) <= 0
        && (Till(s.till + e.applied, p.page) > 0 ==> p.page in s'.failed)
  {
    WithoutIs(s.pending, e.requestId);
  }

  /** An entry that waits for its time. */
  predicate Waits(p: Pending, t: TimeId, till: map<Page, TimeId>) { p.requestId <= 0 && Till(till, p.page) > t }

  lemma {:induction false} TimeLeftIsSoonest(pending: seq<Pending>, t: TimeId, till: map<Page, TimeId>)
    requires t > 0
    ensures TimeLeft(pending, t, till) < INT_MAX <==> exists i :: 0 <= i < |pending| && Waits(pending[i], t, till)
    ensures TimeLeft(pending, t, till) < INT_MAX ==> exists i ::
      0 <= i < |pending| && Waits(pending[i], t, till) && TimeLeft(pending, t, till) == Till(till, pending[i].page) - t
    decreases |pending|
  {
    if pending != [] {
      var n := |pending| - 1;
      TimeLeftIsSoonest(pending[..n], t, till);
      if Waits(pending[n], t, till) {
        assert Till(till, pending[n].page) - t < INT_MAX;
      }
    }
  }

  /** The timer goes off when the time of this entry comes. */
  ghost predicate GoesOffWith(s: State, e: Event, i: nat)
    requires e.Resolve? && Enabled(s, e) && i < |s.pending|
  {
    Step(s, e).timer == At(e.now + 1000 * (Till(s.till, s.pending[i].page) - e.t))
  }

  /**
   * After a resolve the timer runs exactly when some entry waits, and goes off with the soonest of them or
   * after a day.
   */
  lemma TimerIsSoonest(s: State, e: Event)
    requires e.Resolve? && Enabled(s, e)
    ensures Step(s, e).timer.At? <==> exists i :: 0 <= i < |s.pending| && Waits(s.pending[i], e.t, s.till)
    ensures forall i :: 0 <= i < |s.pending| && Waits(s.pending[i], e.t, s.till) ==>
      e.now < Step(s, e).timer.deadline <= e.now + 1000 * Min(Till(s.till, s.pending[i].page) - e.t, 86400)
    ensures Step(s, e).timer.At? && Step(s, e).timer.deadline < e.now + 1000 * 86400 ==>
      exists i :: 0 <= i < |s.pending| && Waits(s.pending[i], e.t, s.till) && GoesOffWith(s, e, i)
  {
    hide TimeLeft, Marked, NewAsks, AsksOnce, Stranded;
    TimeLeftIsSoonest(s.pending, e.t, s.till);
    forall i | 0 <= i < |s.pending| && Waits(s.pending[i], e.t, s.till)
      ensures TimeLeft(s.pending, e.t, s.till) <= Till(s.till, s.pending[i].page) - e.t
    {
      TimeLeftFound(s.pending, e.t, s.till, i);
    }
  }

  lemma SameWrapped(x: int, y: int, k: int)
    requires y == x + 0x1_0000_0000 * k
    ensures Wrapped(y) == Wrapped(x)
  {
    var q, r := x / 0x1_0000_0000, x % 0x1_0000_0000;
    assert y == 0x1_0000_0000 * (q + k) + r;
    RemainderOf(q + k, r);
  }

  lemma RemainderOf(q: int, r: int)
    requires 0 <= r < 0x1_0000_0000
    ensures (0x1_0000_0000 * q + r) % 0x1_0000_0000 == r
  {
  }

  /** Wrapping the difference and then the product is wrapping the whole. */
  lemma MsLeftIs(till: TimeId, t: TimeId)
    ensures MsLeft(till, t) == Wrapped((till - t) * 1000)
  {
    WrappedFits(till - t);
    var k :| Wrapped(till - t) == till - t + 0x1_0000_0000 * k;
    SameWrapped((till - t) * 1000, Wrapped(till - t) * 1000, 1000 * k);
  }

  /** The product is right exactly for dates less than 25 days away. */
  lemma MsLeftExact(till: TimeId, t: TimeId)
    ensures MsLeft(till, t) == (till - t) * 1000 <==> -2147483 <= till - t <= 2147483
  {
    MsLeftIs(till, t);
    WrappedFits((till - t) * 1000);
    hide MsLeft, Wrapped;
  }

  /** The product is a multiple of eight, so the millisecond added to it does not overflow. */
  lemma WaitPlusOneFits(till: TimeId, t: TimeId)
    ensures Wait(till, t) + 1 <= INT_MAX
  {
    MsLeftIs(till, t);
    WrappedFits((till - t) * 1000);
    var k :| Wrapped((till - t) * 1000) == (till - t) * 1000 + 0x1_0000_0000 * k;
    assert MsLeft(till, t) == 8 * (125 * (till - t) + 0x2000_0000 * k);
    hide MsLeft, Wrapped;
  }

  /**
   * A delayed page is pending, with a timer that goes off no later than the 32-bit wait, and no later than a
   * timer that was still to go off.
   */
  lemma DelayMovesTimerEarlier(s: State, e: Event)
    requires e.Delay? && e.page !in s.failed && Till(s.till, e.page) != 0
    ensures var s' := Step(s, e);
      && IsPending(s'.pending, e.page) && s'.timer.At?
      && s'.timer.deadline <= e.now + 1 + Max(MsLeft(Till(s.till, e.page), e.t), 0)
      && (s.timer.At? && s.timer.deadline > e.now ==> s'.timer.deadline <= s.timer.deadline + 1)
  {
    var s' := Step(s, e);
    if !IsPending(s.pending, e.page) {
      assert s'.pending[|s.pending|].page == e.page;
    }
    hide MsLeft;
  }

  /** The wait set for a page that starts the timer. */
  function Wait(till: TimeId, t: TimeId): int { Max(MsLeft(till, t), 0) }

  /** A wait is never longer than the time left, unless the date lies so far back that its product wraps above 0. */
  lemma WaitInTime(till: TimeId, t: TimeId)
    ensures Wait(till, t) <= 1000 * Max(till - t, 0) <==> till - t >= -2147483 || Wrapped((till - t) * 1000) <= 0
    ensures till - t > 2147483 ==> Wait(till, t) < 1000 * (till - t)
  {
    MsLeftExact(till, t);
    MsLeftIs(till, t);
    hide MsLeft, Wrapped;
  }

  /**
   * A delayed page is looked at by its own time exactly under that condition, or when the timer goes off by then
   * and sooner than the wait that would be set.
   */
  lemma DelayedInTimeExactlyWhen(s: State, e: Event)
    requires e.Delay? && e.page !in s.failed && Till(s.till, e.page) != 0
    ensures var left := Till(s.till, e.page) - e.t;
      Step(s, e).timer.deadline <= e.now + 1 + 1000 * Max(left, 0) <==>
        || left >= -2147483 || Wrapped(left * 1000) <= 0
        || (s.timer.At? && s.timer.deadline <= e.now + 1 && s.timer.deadline - e.now < Wrapped(left * 1000))
    ensures var left := Till(s.till, e.page) - e.t;
      s.timer.Idle? && -2147483 <= left <= 2147483 ==>
        Step(s, e).timer.deadline == e.now + 1 + 1000 * Max(left, 0)
  {
    WaitInTime(Till(s.till, e.page), e.t);
    MsLeftExact(Till(s.till, e.page), e.t);
    MsLeftIs(Till(s.till, e.page), e.t);
    hide MsLeft, Wrapped;
  }

  /** A page whose time passed 3,000,000 seconds ago waits for another fifteen days. */
  lemma OldPageWaitsFifteenDays(s: State, e: Event)
    requires e.Delay? && e.page !in s.failed && Till(s.till, e.page) != 0 && s.timer.Idle?
    requires Till(s.till, e.page) == e.t - 3_000_000
    ensures Step(s, e).timer.deadline == e.now + 1_294_967_297
  {
    MsLeftIs(Till(s.till, e.page), e.t);
    assert Wrapped(-3_000_000_000) == 1_294_967_296;
    hide MsLeft;
  }

  // ---------- how long an entry stays ----------

  /** The events that take the entry of a page away while it waits for request `r`. */
  predicate Takes(e: Event, page: Page, r: int) {
    e == ClearAll || e == Clear(page) || (e.Got? && e.requestId == r)
  }

  lemma StepStays(s: State, e: Event, page: Page, r: int)
    requires Inv(s) && Enabled(s, e) && r > 0 && Pending(page, r) in s.pending
    ensures Pending(page, r) in Step(s, e).pending <==> !Takes(e, page, r)
    ensures forall n :: n in Step(s, e).asked && n !in s.asked ==> page !in Step(s, e).asked[n].pages
  {
    match e {
      case Resolve(_, _, _, _) => ResolveStays(s, e, page, r);
      case Got(requestId, _) => WithoutIs(s.pending, requestId);
      case Clear(other) => WithoutPageIs(s.pending, other);
      case _ =>
    }
    hide Inv, AsksOnce, Marked, NewAsks, TimeLeft, Stranded;
  }

  lemma ResolveStays(s: State, e: Event, page: Page, r: int)
    requires Inv(s) && e.Resolve? && Enabled(s, e) && r > 0 && Pending(page, r) in s.pending
    ensures Pending(page, r) in Step(s, e).pending
    ensures forall n :: n in Step(s, e).asked && n !in s.asked ==> page !in Step(s, e).asked[n].pages
  {
    var i :| 0 <= i < |s.pending| && s.pending[i] == Pending(page, r);
    ResolvedEntry(s, e, i);
    assert Step(s, e).pending[i] == s.pending[i];
    NewAsksLeaveOut(s, e.t, e.items, e.sent, page, i);
    hide Inv, Marked, TimeLeft, Stranded, AskedIn, ItemIds, NewAsks, AskFor, AsksOnce;
  }

  lemma NewAsksLeaveOut(s: State, t: TimeId, items: map<Page, Item>, sent: seq<Where>, page: Page, i: nat)
    requires Distinct(s.pending) && i < |s.pending| && s.pending[i].page == page && s.pending[i].requestId > 0
    ensures forall r :: r in NewAsks(s, t, items, sent) ==> page !in NewAsks(s, t, items, sent)[r].pages
  {
    hide AskedIn, ItemIds;
    hide NewAsks;
    NewAsksAre(s, t, items, sent);
    var asks := NewAsks(s, t, items, sent);
    forall r | r in asks ensures page !in asks[r].pages {
      AskedAreFree(s.pending, t, s.till, items, sent[r - s.nextId], page, i);
    }
  }

  lemma {:induction false} AskedAreFree(
    pending: seq<Pending>, t: TimeId, till: map<Page, TimeId>, items: map<Page, Item>, w: Where, page: Page, i: nat)
    requires Distinct(pending) && (i < |pending| ==> pending[i].page == page && pending[i].requestId > 0)
    requires i >= |pending| ==> !IsPending(pending, page)
    ensures page !in AskedIn(pending, t, till, items, w)
  {
    if pending != [] {
      AskedAreFree(pending[..|pending| - 1], t, till, items, w, page, i);
    }
  }

  lemma StepNeverReturns(s: State, e: Event, page: Page, r: int)
    requires Inv(s) && Enabled(s, e) && 0 < r < s.nextId && Pending(page, r) !in s.pending
    ensures Pending(page, r) !in Step(s, e).pending && r < Step(s, e).nextId
  {
    if e.Resolve? {
      forall i | 0 <= i < |s.pending| ensures Step(s, e).pending[i] != Pending(page, r) {
        assert s.pending[i] in s.pending;
        ResolvedEntry(s, e, i);
      }
      assert |Step(s, e).pending| == |s.pending|;
    } else if e.Got? {
      WithoutIs(s.pending, e.requestId);
    } else if e.Clear? {
      WithoutPageIs(s.pending, e.page);
    }
    hide Inv, AsksOnce, Marked, NewAsks, TimeLeft, Stranded;
  }

  lemma {:induction false} NeverReturns(s: State, es: seq<Event>, page: Page, r: int)
    requires Inv(s) && IsRun(s, es) && 0 < r < s.nextId && Pending(page, r) !in s.pending
    ensures Pending(page, r) !in After(s, es).pending
    decreases |es|
  {
    hide Inv, Step;
    if es != [] {
      StepKeepsInv(s, es[0]);
      StepNeverReturns(s, es[0], page, r);
      NeverReturns(Step(s, es[0]), es[1..], page, r);
    }
  }

  /** An asked page keeps its entry exactly until its own reply or an explicit clear, and is not asked for meanwhile. */
  lemma {:induction false} StaysUntilTaken(s: State, es: seq<Event>, page: Page, r: int)
    requires Inv(s) && IsRun(s, es) && r > 0 && Pending(page, r) in s.pending
    ensures Pending(page, r) in After(s, es).pending <==> forall i :: 0 <= i < |es| ==> !Takes(es[i], page, r)
    ensures Pending(page, r) in After(s, es).pending ==> forall n :: n in After(s, es).asked && n !in s.asked ==>
      page !in After(s, es).asked[n].pages
    decreases |es|
  {
    hide Inv, Step, Takes;
    if es != [] {
      var s' := Step(s, es[0]);
      StepKeepsInv(s, es[0]);
      StepStays(s, es[0], page, r);
      Fresher(s, page, r);
      if Takes(es[0], page, r) {
        StillOld(s, es[0], r);
        NeverReturns(s', es[1..], page, r);
      } else {
        StaysUntilTaken(s', es[1..], page, r);
        AsksAreKept(s', es[1..]);
        assert forall i :: 0 < i < |es| ==> es[i] == es[1..][i - 1];
      }
    }
  }

  lemma Fresher(s: State, page: Page, r: int)
    requires Inv(s) && r > 0 && Pending(page, r) in s.pending
    ensures r in s.asked && r < s.nextId
  {
  }

  lemma StillOld(s: State, e: Event, r: int)
    requires Enabled(s, e) && r < s.nextId
    ensures r < Step(s, e).nextId
  {
  }

  ghost predicate Gone(s: State, r: int) { r !in s.inflight && 0 < r < s.nextId }

  lemma {:induction false} GoneStaysGone(s: State, es: seq<Event>, r: int, i: nat)
    requires IsRun(s, es) && Gone(s, r) && i < |es|
    ensures !(es[i].Got? && es[i].requestId == r)
    decreases |es|
  {
    if i > 0 {
      if es[0].Resolve? {
        NewAsksAre(s, es[0].t, es[0].items, es[0].sent);
      }
      GoneStaysGone(Step(s, es[0]), es[1..], r, i - 1);
    }
  }

  /** There is no fail handler: a page whose request failed is pending for good, unless it is cleared. */
  lemma FailedPageSticks(s: State, r: int, es: seq<Event>, page: Page)
    requires Inv(s) && r in s.inflight && Pending(page, r) in s.pending && IsRun(Step(s, Fail(r)), es)
    ensures var s' := After(Step(s, Fail(r)), es);
      && (Pending(page, r) in s'.pending <==> ClearAll !in es && Clear(page) !in es)
      && (ClearAll !in es && Clear(page) !in es ==>
        forall n :: n in s'.asked && n !in s.asked ==> page !in s'.asked[n].pages)
  {
    var failed := Step(s, Fail(r));
    StepKeepsInv(s, Fail(r));
    Fresher(s, page, r);
    assert failed.asked == s.asked && Gone(failed, r);
    forall i | 0 <= i < |es| ensures Takes(es[i], page, r) <==> es[i] == ClearAll || es[i] == Clear(page) {
      GoneStaysGone(failed, es, r, i);
    }
    StaysUntilTaken(failed, es, page, r);
    hide Inv, Step, Takes;
  }
}
