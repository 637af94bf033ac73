/** When a page that is due but had no message to ask for is asked for again. */
module WebPagesStranded {
  import opened Basics
  import opened Locations
  import opened WebPages

  /** The events that end an entry without a request: a clear, or a resolve that finds the page due and a message. */
  predicate TakesUnasked(s: State, e: Event, page: Page) {
    e == ClearAll || e == Clear(page) || (e.Resolve? && page in e.items && Till(s.till, page) <= e.t)
  }

  lemma StepUnasked(s: State, e: Event, page: Page)
    requires Inv(s) && Enabled(s, e) && Pending(page, 0) in s.pending
    ensures Pending(page, 0) in Step(s, e).pending <==> !TakesUnasked(s, e, page)
  {
    match e {
      case Resolve(_, _, _, _) => ResolveUnasked(s, e, page);
      case Got(requestId, _) => WithoutIs(s.pending, requestId);
      case Clear(other) => WithoutPageIs(s.pending, other);
      case _ =>
    }
    hide AsksOnce, Marked, NewAsks, TimeLeft, Stranded, Distinct, EntryOk;
  }

  lemma ResolveUnasked(s: State, e: Event, page: Page)
    requires Inv(s) && e.Resolve? && Enabled(s, e) && Pending(page, 0) in s.pending
    ensures Pending(page, 0) in Step(s, e).pending <==> !TakesUnasked(s, e, page)
  {
    var s' := Step(s, e);
    forall i | 0 <= i < |s.pending|
      ensures s'.pending[i].page == s.pending[i].page
      ensures s.pending[i] == Pending(page, 0) ==> (s'.pending[i] == Pending(page, 0) <==> !TakesUnasked(s, e, page))
    {
      ResolvedEntry(s, e, i);
    }
    assert |s'.pending| == |s.pending|;
    var i :| 0 <= i < |s.pending| && s.pending[i] == Pending(page, 0);
    hide Step, Enabled, EntryOk;
    assert forall j :: 0 <= j < |s.pending| && j != i ==> s.pending[j].page != page;
  }

  /** The entry has no request in any state of the run. */
  ghost predicate AlwaysUnasked(s: State, es: seq<Event>, page: Page)
    requires IsRun(s, es)
    decreases |es|
  {
    Pending(page, 0) in s.pending && (es == [] || AlwaysUnasked(Step(s, es[0]), es[1..], page))
  }

  ghost predicate Untaken(s: State, es: seq<Event>, page: Page)
    requires IsRun(s, es)
    decreases |es|
  {
    es == [] || (!TakesUnasked(s, es[0], page) && Untaken(Step(s, es[0]), es[1..], page))
  }

  /** A page without a request stays so exactly until one of these events. */
  lemma {:induction false} UnaskedExactlyUntilTaken(s: State, es: seq<Event>, page: Page)
    requires Inv(s) && IsRun(s, es) && Pending(page, 0) in s.pending
    ensures AlwaysUnasked(s, es, page) <==> Untaken(s, es, page)
    decreases |es|
  {
    hide Inv, Step, Enabled, TakesUnasked;
    if es != [] {
      var s' := Step(s, es[0]);
      StepKeepsInv(s, es[0]);
      StepUnasked(s, es[0], page);
      if Pending(page, 0) in s'.pending {
        UnaskedExactlyUntilTaken(s', es[1..], page);
      }
    }
  }

  // ---------- who starts the timer ----------

  /** The delay of some page takes effect. */
  predicate Delays(s: State, e: Event) {
    e.Delay? && e.page !in s.failed && Till(s.till, e.page) != 0
  }

  /** Only the timer resolves, and no delay takes effect. */
  ghost predicate Undelayed(s: State, es: seq<Event>)
    requires IsRun(s, es)
    decreases |es|
  {
    es == [] ||
    (!Delays(s, es[0]) && (es[0].Resolve? ==> s.timer.At?) && Undelayed(Step(s, es[0]), es[1..]))
  }

  lemma StepUndelayed(s: State, e: Event, page: Page)
    requires Inv(s) && Enabled(s, e) && s.timer.Idle? && !e.Resolve? && !Delays(s, e)
    ensures Step(s, e).timer.Idle?
    ensures Pending(page, 0) in Step(s, e).pending <==>
      Pending(page, 0) in s.pending && e != ClearAll && e != Clear(page)
  {
    if Pending(page, 0) in s.pending {
      StepUnasked(s, e, page);
    } else if e.Got? {
      WithoutIs(s.pending, e.requestId);
    } else if e.Clear? {
      WithoutPageIs(s.pending, e.page);
    }
    hide Inv, TakesUnasked;
  }

  /**
   * A stranded page leaves no timer behind: as long as no delay of this or another page takes effect, it stays
   * without a request exactly until it is cleared.
   */
  lemma {:induction false} StrandedUntilDelay(s: State, es: seq<Event>, page: Page)
    requires Inv(s) && IsRun(s, es) && Undelayed(s, es) && s.timer.Idle?
    ensures Pending(page, 0) in After(s, es).pending <==>
      Pending(page, 0) in s.pending && ClearAll !in es && Clear(page) !in es
    decreases |es|
  {
    hide Inv, Step, Enabled, Delays;
    if es != [] {
      StepKeepsInv(s, es[0]);
      StepUndelayed(s, es[0], page);
      StrandedUntilDelay(Step(s, es[0]), es[1..], page);
      assert es == [es[0]] + es[1..];
    }
  }

  lemma {:induction false} NothingElsewhere(
    pending: seq<Pending>, t: TimeId, till: map<Page, TimeId>, items: map<Page, Item>, w: Where)
    requires forall p :: p in items ==> items[p].where != w
    ensures AskedIn(pending, t, till, items, w) == []
  {
    if pending != [] {
      NothingElsewhere(pending[..|pending| - 1], t, till, items, w);
    }
  }

  /** With one message at hand one table is asked. */
  lemma AsksOneTable(s: State, page: Page, item: Item, t: TimeId)
    requires Pending(page, 0) in s.pending && Till(s.till, page) <= t
    ensures AsksOnce(s, t, map[page := item], [item.where])
  {
    var items := map[page := item];
    AskedInExactly(s.pending, t, s.till, items, item.where);
    forall w: Where | w != item.where ensures AskedIn(s.pending, t, s.till, items, w) == [] {
      NothingElsewhere(s.pending, t, s.till, items, w);
    }
    hide AskedIn;
  }

  lemma ResolveAsks(s: State, page: Page, item: Item, t: TimeId, now: int)
    requires Inv(s) && Pending(page, 0) in s.pending && t > 0 && Till(s.till, page) <= t
    ensures var e := Resolve(t, now, map[page := item], [item.where]);
      && Enabled(s, e) && Pending(page, s.nextId) in Step(s, e).pending && s.nextId in Step(s, e).asked
      && item.id in Step(s, e).asked[s.nextId].ids
  {
    var e := Resolve(t, now, map[page := item], [item.where]);
    var i :| 0 <= i < |s.pending| && s.pending[i] == Pending(page, 0);
    AsksOneTable(s, page, item, t);
    ResolveAsksForDuePages(s, e, i);
    MarkedIds(s, t, e.items, e.sent, i);
    hide Inv, AsksOnce, Marked, NewAsks, TimeLeft, Stranded, AskFor;
  }

  /** Any delay that takes effect starts the timer, and the next resolve asks for the page if its message is there. */
  lemma DelayThenAsked(s: State, delay: Event, page: Page, item: Item, t: TimeId, now: int)
    requires Inv(s) && Delays(s, delay) && Pending(page, 0) in s.pending
    requires t > 0 && Till(s.till, page) <= t
    ensures var s1, e := Step(s, delay), Resolve(t, now, map[page := item], [item.where]);
      && s1.timer.At? && Enabled(s1, e) && Pending(page, s1.nextId) in Step(s1, e).pending
      && s1.nextId in Step(s1, e).asked && item.id in Step(s1, e).asked[s1.nextId].ids
  {
    StepKeepsInv(s, delay);
    StepUnasked(s, delay, page);
    ResolveAsks(Step(s, delay), page, item, t, now);
    hide Inv, Enabled, MsLeft;
  }
}
