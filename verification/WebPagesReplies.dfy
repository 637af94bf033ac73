/** What a reply does to the pages it is for, and to no others; and what a request asks for, and nothing else. */
module WebPagesReplies {
  import opened Basics
  import opened Locations
  import opened WebPages

  // ---------- replies ----------

  /** The reply is for this page, and leaves it with a pending time: the preview did not load. */
  predicate LeavesPending(s: State, e: Event, page: Page) {
    e.Got? && Pending(page, e.requestId) in s.pending && Till(s.till + e.applied, page) > 0
  }

  /** A page becomes failed exactly by such a reply. */
  lemma FailsExactlyWhenLeftPending(s: State, e: Event, page: Page)
    requires Enabled(s, e)
    ensures page in Step(s, e).failed <==> page in s.failed || LeavesPending(s, e, page)
  {
    hide AsksOnce, Marked, NewAsks, TimeLeft, Stranded, Without, WithoutPage;
    if e.Got? && page in GivenUp(s.pending, e.requestId, s.till + e.applied) {
      var p :| p in s.pending && p.requestId == e.requestId && p.page == page;
      assert p == Pending(page, e.requestId);
    }
  }

  /** Its pending time is then cleared; all other pages keep theirs, or get the one the reply has for them. */
  lemma TimesAfterReply(s: State, e: Event, page: Page)
    requires Enabled(s, e)
    ensures Till(Step(s, e).till, page)
      == if LeavesPending(s, e, page) then 0
         else if e.Got? then (if page in e.applied then e.applied[page] else Till(s.till, page))
         else Till(s.till, page)
  {
    hide AsksOnce, Marked, NewAsks, TimeLeft, Stranded, Without, WithoutPage;
    if e.Got? && page in GivenUp(s.pending, e.requestId, s.till + e.applied) {
      var p :| p in s.pending && p.requestId == e.requestId && p.page == page;
      assert p == Pending(page, e.requestId);
    }
  }

  /** Some reply of the run leaves the page pending. */
  ghost predicate LeftPending(s: State, es: seq<Event>, page: Page)
    requires IsRun(s, es)
    decreases |es|
  {
    es != [] && (LeavesPending(s, es[0], page) || LeftPending(Step(s, es[0]), es[1..], page))
  }

  /** Over every run a page is failed exactly when it was, or a reply for it left it with a pending time. */
  lemma {:induction false} FailedExactlyAfterSuchReply(s: State, es: seq<Event>, page: Page)
    requires IsRun(s, es)
    ensures page in After(s, es).failed <==> page in s.failed || LeftPending(s, es, page)
    decreases |es|
  {
    hide Step, Enabled, LeavesPending;
    if es != [] {
      FailsExactlyWhenLeftPending(s, es[0], page);
      FailedExactlyAfterSuchReply(Step(s, es[0]), es[1..], page);
    }
  }

  /** A failed page is not delayed again: nothing changes. */
  lemma FailedPageIsNotDelayed(s: State, e: Event)
    requires e.Delay? && e.page in s.failed
    ensures Step(s, e) == s
  {
  }

  // ---------- which entries there are ----------

  /** Only a delay adds an entry, and only for its own page, when that is neither failed nor done. */
  lemma EntriesComeFromDelays(s: State, e: Event, page: Page)
    requires Inv(s) && Enabled(s, e)
    ensures IsPending(Step(s, e).pending, page) <==>
      match e
      case Delay(p, _, _) => IsPending(s.pending, page) || (p == page && page !in s.failed && Till(s.till, page) != 0)
      case Clear(p) => IsPending(s.pending, page) && p != page
      case ClearAll => false
      case Got(r, _) => IsPending(s.pending, page) && Pending(page, r) !in s.pending
      case _ => IsPending(s.pending, page)
  {
    match e {
      case Delay(_, _, _) => DelayEntries(s, e, page);
      case Clear(p) => ClearEntries(s, p, page);
      case Got(_, _) => GotEntries(s, e, page);
      case Resolve(_, _, _, _) => ResolveEntries(s, e, page);
      case _ =>
    }
    hide Inv, AsksOnce, Marked, NewAsks, TimeLeft, Stranded, Without, WithoutPage;
  }

  lemma DelayEntries(s: State, e: Event, page: Page)
    requires e.Delay?
    ensures IsPending(Step(s, e).pending, page) <==>
      IsPending(s.pending, page) || (e.page == page && page !in s.failed && Till(s.till, page) != 0)
  {
    var s' := Step(s, e);
    if s'.pending != s.pending {
      assert s'.pending == s.pending + [Pending(e.page, 0)];
      assert s'.pending[|s.pending|].page == e.page;
      assert forall i :: 0 <= i < |s.pending| ==> s'.pending[i] == s.pending[i];
    }
    hide MsLeft;
  }

  lemma PendingIn(pending: seq<Pending>, page: Page)
    ensures IsPending(pending, page) <==> exists p :: p in pending && p.page == page
  {
    if IsPending(pending, page) {
      var i :| 0 <= i < |pending| && pending[i].page == page;
      assert pending[i] in pending;
    }
  }

  lemma ClearEntries(s: State, other: Page, page: Page)
    ensures IsPending(Step(s, Clear(other)).pending, page) <==> IsPending(s.pending, page) && other != page
    ensures var s' := Step(s, Clear(other)); s'.timer == if s'.pending == [] then Idle else s.timer
  {
    WithoutPageIs(s.pending, other);
    PendingIn(s.pending, page);
    PendingIn(WithoutPage(s.pending, other), page);
    hide IsPending, WithoutPage, Distinct;
  }

  lemma GotEntries(s: State, e: Event, page: Page)
    requires Distinct(s.pending) && e.Got? && Enabled(s, e)
    ensures IsPending(Step(s, e).pending, page) <==>
      IsPending(s.pending, page) && Pending(page, e.requestId) !in s.pending
  {
    WithoutIs(s.pending, e.requestId);
    PendingIn(s.pending, page);
    PendingIn(Without(s.pending, e.requestId), page);
    forall p, q | p in s.pending && q in s.pending && p.page == q.page ensures p == q {
    }
    hide IsPending, Without, GivenUp, Zeros;
  }

  lemma ResolveEntries(s: State, e: Event, page: Page)
    requires Inv(s) && e.Resolve? && Enabled(s, e)
    ensures IsPending(Step(s, e).pending, page) <==> IsPending(s.pending, page)
  {
    var s' := Step(s, e);
    forall i | 0 <= i < |s.pending| ensures s'.pending[i].page == s.pending[i].page {
      assert s.pending[i] in s.pending;
      ResolvedEntry(s, e, i);
    }
    assert |s'.pending| == |s.pending|;
    hide Step, Inv;
  }

  /** Clearing everything leaves no entry and no timer; what was sent stays in flight. */
  lemma ClearAllLeavesNothing(s: State)
    ensures Step(s, ClearAll) == s.(pending := [], timer := Idle)
  {
  }

  /** A reply or a failure ends its own request, and nothing else ends one. */
  lemma RequestsEndOnce(s: State, e: Event, r: int)
    requires Enabled(s, e) && r in s.inflight
    ensures r in Step(s, e).inflight <==> !((e.Got? || e.Fail?) && e.requestId == r)
  {
    hide AsksOnce, Marked, NewAsks, TimeLeft, Stranded, Without, WithoutPage;
  }

  /** The timer a delay leaves: its own wait when there is none, or none that goes off sooner. */
  lemma DelaySetsTimer(s: State, e: Event)
    requires e.Delay? && e.page !in s.failed && Till(s.till, e.page) != 0
    ensures var wait := Wait(Till(s.till, e.page), e.t);
      Step(s, e).timer ==
        if s.timer.At? && s.timer.deadline - e.now < MsLeft(Till(s.till, e.page), e.t) then s.timer
        else At(e.now + wait + 1)
  {
    hide MsLeft;
  }

  // ---------- requests ask for nothing else ----------

  lemma {:induction false} AskedInOnly(
    pending: seq<Pending>, t: TimeId, till: map<Page, TimeId>, items: map<Page, Item>, w: Where, page: Page)
    requires page in AskedIn(pending, t, till, items, w)
    ensures exists p :: p in pending && p.page == page && IsAskedIn(p, t, till, items, w)
  {
    var n := |pending| - 1;
    if page in AskedIn(pending[..n], t, till, items, w) {
      AskedInOnly(pending[..n], t, till, items, w, page);
    } else {
      assert pending[n] in pending;
    }
  }

  lemma {:induction false} IdsOnly(pages: seq<Page>, items: map<Page, Item>, id: int)
    requires (forall p :: p in pages ==> p in items) && id in ItemIds(pages, items)
    ensures exists p :: p in pages && items[p].id == id
  {
    var n := |pages| - 1;
    assert pages[n] in pages;
    if id in ItemIds(pages[..n], items) {
      IdsOnly(pages[..n], items, id);
    }
  }

  /** The message stands for a page that is due, has no request yet, and is shown in that table. */
  ghost predicate StandsForDue(s: State, t: TimeId, items: map<Page, Item>, w: Where, id: int) {
    exists p :: p in s.pending && p.requestId <= 0 && Till(s.till, p.page) <= t && p.page in items
      && items[p.page] == Item(w, id)
  }

  lemma AskForOnly(s: State, t: TimeId, items: map<Page, Item>, w: Where, id: int)
    requires id in AskFor(s, t, items, w).ids
    ensures StandsForDue(s, t, items, w, id)
  {
    var pages := AskedIn(s.pending, t, s.till, items, w);
    IdsOnly(pages, items, id);
    hide AskedIn, ItemIds;
    var page :| page in pages && items[page].id == id;
    AskedInOnly(s.pending, t, s.till, items, w, page);
    var p :| p in s.pending && p.page == page && IsAskedIn(p, t, s.till, items, w);
    assert items[p.page] == Item(w, id);
  }

  lemma {:induction false} NewAskAt(s: State, t: TimeId, items: map<Page, Item>, sent: seq<Where>, r: int)
    requires r in NewAsks(s, t, items, sent)
    ensures NewAsks(s, t, items, sent)[r] == AskFor(s, t, items, NewAsks(s, t, items, sent)[r].where)
    decreases |sent|
  {
    var n := |sent| - 1;
    assert AskFor(s, t, items, sent[n]).where == sent[n];
    hide AskFor;
    if r != s.nextId + n {
      NewAskAt(s, t, items, sent[..n], r);
    }
  }

  lemma NewAskIs(s: State, e: Event, r: int)
    requires e.Resolve? && Enabled(s, e) && r in Step(s, e).asked && r !in s.asked
    ensures Step(s, e).asked[r] == AskFor(s, e.t, e.items, Step(s, e).asked[r].where)
  {
    hide NewAsks, Marked, TimeLeft, Stranded, AsksOnce, AskFor;
    assert Step(s, e).asked == s.asked + NewAsks(s, e.t, e.items, e.sent);
    NewAskAt(s, e.t, e.items, e.sent, r);
  }

  /** Every message a new request asks for stands for a due page without a request. */
  lemma RequestsAskForNothingElse(s: State, e: Event, r: int, id: int)
    requires e.Resolve? && Enabled(s, e) && r in Step(s, e).asked && r !in s.asked
    requires id in Step(s, e).asked[r].ids
    ensures StandsForDue(s, e.t, e.items, Step(s, e).asked[r].where, id)
  {
    NewAskIs(s, e, r);
    hide Step, Enabled, AskFor, StandsForDue;
    AskForOnly(s, e.t, e.items, Step(s, e).asked[r].where, id);
  }

  // ---------- the order of what is asked for ----------

  lemma {:induction false} AskedAt(
    pending: seq<Pending>, t: TimeId, till: map<Page, TimeId>, items: map<Page, Item>, w: Where)
    returns (at: seq<nat>)
    ensures |at| == |AskedIn(pending, t, till, items, w)|
    ensures forall k :: 0 <= k < |at| ==>
      at[k] < |pending| && pending[at[k]].page == AskedIn(pending, t, till, items, w)[k]
    ensures forall j, k :: 0 <= j < k < |at| ==> at[j] < at[k]
    ensures forall i: nat :: i in at <==> i < |pending| && IsAskedIn(pending[i], t, till, items, w)
    decreases |pending|
  {
    at := [];
    if pending != [] {
      var n := |pending| - 1;
      at := AskedAt(pending[..n], t, till, items, w);
      if IsAskedIn(pending[n], t, till, items, w) {
        at := at + [n];
      }
    }
  }

  lemma {:induction false} ItemIdAt(pages: seq<Page>, items: map<Page, Item>, k: nat)
    requires (forall p :: p in pages ==> p in items) && k < |pages|
    ensures ItemIds(pages, items)[k] == items[pages[k]].id
  {
    var n := |pages| - 1;
    assert pages[n] in pages;
    if k < n {
      ItemIdAt(pages[..n], items, k);
    }
  }

  /** A new request asks for exactly the due entries of its table that have none, in the order of the entries. */
  lemma AsksInEntryOrder(s: State, e: Event, r: int) returns (at: seq<nat>)
    requires e.Resolve? && Enabled(s, e) && r in Step(s, e).asked && r !in s.asked
    ensures var ask := Step(s, e).asked[r];
      && |at| == |ask.pages| == |ask.ids|
      && (forall j, k :: 0 <= j < k < |at| ==> at[j] < at[k])
      && (forall k :: 0 <= k < |at| ==>
            at[k] < |s.pending| && ask.pages[k] == s.pending[at[k]].page
            && ask.pages[k] in e.items && ask.ids[k] == e.items[ask.pages[k]].id)
      && forall i: nat :: i in at <==>
            i < |s.pending| && s.pending[i].requestId <= 0 && Till(s.till, s.pending[i].page) <= e.t
            && s.pending[i].page in e.items && e.items[s.pending[i].page].where == ask.where
  {
    NewAskIs(s, e, r);
    var w := Step(s, e).asked[r].where;
    var pages := AskedIn(s.pending, e.t, s.till, e.items, w);
    assert Step(s, e).asked[r] == Ask(w, ItemIds(pages, e.items), pages);
    hide Step, Enabled, AskedIn, ItemIds;
    at := AskedAt(s.pending, e.t, s.till, e.items, w);
    forall k | 0 <= k < |pages| ensures ItemIds(pages, e.items)[k] == e.items[pages[k]].id {
      ItemIdAt(pages, e.items, k);
    }
  }

  lemma CommonIsFirst(s: State, t: TimeId, items: map<Page, Item>, sent: seq<Where>, r: int)
    requires Common in sent ==> sent[0] == Common
    requires forall j, k :: 0 <= j < k < |sent| ==> sent[j] != sent[k]
    requires r in NewAsks(s, t, items, sent) && NewAsks(s, t, items, sent)[r].where == Common
    ensures r == s.nextId
  {
    NewAsksAre(s, t, items, sent);
    hide NewAsks, AskedIn, ItemIds;
    assert sent[r - s.nextId] == Common;
  }

  /** The request for messages outside channels is the first of a resolve. */
  lemma CommonGoesFirst(s: State, e: Event, r: int)
    requires e.Resolve? && Enabled(s, e) && r in Step(s, e).asked && r !in s.asked
    requires Step(s, e).asked[r].where == Common
    ensures r == s.nextId
  {
    hide NewAsks, Marked, TimeLeft, Stranded, AskedIn;
    assert Step(s, e).asked == s.asked + NewAsks(s, e.t, e.items, e.sent);
    CommonIsFirst(s, e.t, e.items, e.sent, r);
  }
}
