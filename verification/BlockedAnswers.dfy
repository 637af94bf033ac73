/** Each completion answers its own callbacks exactly as long as no two requests for one peer overlap. */
module BlockedAnswers {
  import opened BlockedPeers

  /** The callbacks that wait for a request in its own stored entry; none once another request took its place. */
  function OwnWaiting(s: State, r: int): seq<Callback> {
    if r in s.inflight && s.inflight[r].peer in s.entries && s.entries[s.inflight[r].peer].requestId == r
    then s.entries[s.inflight[r].peer].callbacks else []
  }

  ghost predicate Completes(s: State, es: seq<Event>, e: Event) {
    IsRun(s, es) && NoSwitch(s, es) && e.Complete? && Enabled(After(s, es), e)
  }

  /** A completion answers exactly the callbacks that joined its own request, before this run or in it. */
  ghost predicate AnswersOwn(s: State, es: seq<Event>, e: Event)
    requires Completes(s, es, e)
  {
    var t, r := After(s, es), e.requestId;
    Step(t, e).fired == t.fired + Answer(OwnWaiting(s, r) + Joined(s, es, r), e.ok && !t.inflight[r].blocking)
  }

  /** So does every completion after every continuation in which no call switches. */
  ghost predicate AllAnswerOwn(s: State) {
    forall es: seq<Event>, e: Event :: Completes(s, es, e) ==> AnswersOwn(s, es, e)
  }

  // ---------- nobody waits for a block ----------

  ghost predicate BlocksSilent(s: State) {
    forall p :: p in s.entries && s.entries[p].blocking ==> s.entries[p].callbacks == []
  }

  lemma StepKeepsSilent(s: State, e: Event)
    requires BlocksSilent(s) && Enabled(s, e)
    ensures BlocksSilent(Step(s, e))
  {
    hide Answer, WithPeer, WithoutPeer, ToSlice;
  }

  lemma {:induction false} RunKeepsSilent(s: State, es: seq<Event>)
    requires BlocksSilent(s) && IsRun(s, es)
    ensures BlocksSilent(After(s, es))
    decreases |es|
  {
    hide BlocksSilent, Step, Enabled;
    if es != [] {
      StepKeepsSilent(s, es[0]);
      RunKeepsSilent(Step(s, es[0]), es[1..]);
    }
  }

  // ---------- without overlap ----------

  lemma AloneAnswersOwn(s: State, es: seq<Event>, e: Event)
    requires Inv(s) && NoOverlap(s) && Completes(s, es, e)
    ensures AnswersOwn(s, es, e)
  {
    hide Step, Inv;
    RunCollectsJoins(s, es, e.requestId);
    AloneAnswersItsOwn(After(s, es), e);
    assert OwnWaiting(s, e.requestId) == WaitingFor(s, e.requestId);
  }

  // ---------- with overlap ----------

  lemma {:induction false} AnswerLength(callbacks: seq<Callback>, success: bool)
    ensures |Answer(callbacks, success)| == |callbacks|
  {
    if callbacks != [] {
      AnswerLength(callbacks[1..], success);
    }
  }

  /** The request is in flight, but the entry of its peer, if any, is another request's. */
  ghost predicate Stale(s: State, r: int) {
    r in s.inflight &&
    var peer := s.inflight[r].peer;
    peer in s.entries ==> s.entries[peer].requestId != r
  }

  ghost predicate BlockStored(s: State, r: int)
    requires r in s.inflight
  {
    s.inflight[r].peer in s.entries && s.entries[s.inflight[r].peer].blocking
  }

  /** A callback joins the next unblock, and the stale request answers it. */
  lemma StaleAnswersNext(s: State, r: int, c: Callback)
    requires Inv(s) && Stale(s, r) && !BlockStored(s, r)
    ensures var u, e := Unblock(s.inflight[r].peer, [c], true), Complete(r, false, 0);
      && Enabled(s, u) && !Switches(s, u) && Joins(s, u, r) == []
      && Enabled(Step(s, u), e) && Step(Step(s, u), e).fired != Step(s, u).fired
  {
    hide Conserved, SliceOk, OwnInFlight, Answer, WithPeer, WithoutPeer;
    var peer := s.inflight[r].peer;
    var t := Step(s, Unblock(peer, [c], true));
    assert t.inflight[r] == s.inflight[r] && peer in t.entries && t.entries[peer].callbacks != [];
    AnswerLength(t.entries[peer].callbacks, false);
  }

  /** One step of a run before the rest of it. */
  lemma StepFirst(s: State, first: Event, es: seq<Event>, e: Event)
    requires Enabled(s, first) && !Switches(s, first) && Completes(Step(s, first), es, e)
    ensures Completes(s, [first] + es, e)
    ensures After(s, [first] + es) == After(Step(s, first), es)
    ensures Joined(s, [first] + es, e.requestId)
      == Joins(s, first, e.requestId) + Joined(Step(s, first), es, e.requestId)
  {
    hide Step, Enabled, Switches, Joins;
    assert ([first] + es)[1..] == es && ([first] + es)[0] == first;
  }

  lemma StaleIsWrong(s: State, r: int, c: Callback) returns (es: seq<Event>, e: Event)
    requires Inv(s) && Stale(s, r) && !BlockStored(s, r)
    ensures e == Complete(r, false, 0) && Completes(s, es, e) && Joined(s, es, r) == []
    ensures Step(After(s, es), e).fired != After(s, es).fired
  {
    var u := Unblock(s.inflight[r].peer, [c], true);
    e := Complete(r, false, 0);
    StaleAnswersNext(s, r, c);
    hide Step, Enabled, Switches, Joins, Inv, Stale, BlockStored;
    assert Completes(Step(s, u), [], e);
    StepFirst(s, u, [], e);
    es := [u] + [];
  }

  /** The stale request completes while a block is stored: the block itself becomes stale. */
  lemma BlockBecomesStale(s: State, r: int)
    requires Inv(s) && Stale(s, r) && BlockStored(s, r)
    ensures var q, e := s.entries[s.inflight[r].peer].requestId, Complete(r, false, 0);
      && Enabled(s, e) && Stale(Step(s, e), q) && !BlockStored(Step(s, e), q)
  {
    hide Conserved, SliceOk, Answer;
  }

  lemma OverlapIsWrong(s: State, r: int, c: Callback)
    requires Inv(s) && BlocksSilent(s) && Stale(s, r)
    ensures !AllAnswerOwn(s)
  {
    if !BlockStored(s, r) {
      var es, e := StaleIsWrong(s, r, c);
      NotOwn(s, es, e);
    } else {
      var first := Complete(r, false, 0);
      var q := s.entries[s.inflight[r].peer].requestId;
      BlockBecomesStale(s, r);
      StepKeepsInv(s, first);
      var es, e := StaleIsWrong(Step(s, first), q, c);
      assert OwnWaiting(s, q) == [];
      hide Step, Enabled, Inv, Stale, BlockStored, BlocksSilent, OwnWaiting;
      StepFirst(s, first, es, e);
      NotOwn(s, [first] + es, e);
    }
  }

  lemma NotOwn(s: State, es: seq<Event>, e: Event)
    requires Completes(s, es, e) && OwnWaiting(s, e.requestId) + Joined(s, es, e.requestId) == []
    requires Step(After(s, es), e).fired != After(s, es).fired
    ensures !AllAnswerOwn(s)
  {
    hide Step, Enabled;
    assert !AnswersOwn(s, es, e);
  }

  /** In any reachable state: from here on every completion answers its own callbacks exactly if nothing overlaps. */
  lemma OwnAnswersExactlyWithoutOverlap(s: State)
    requires Inv(s) && BlocksSilent(s)
    ensures AllAnswerOwn(s) <==> NoOverlap(s)
  {
    if NoOverlap(s) {
      forall es: seq<Event>, e: Event | Completes(s, es, e) ensures AnswersOwn(s, es, e) {
        AloneAnswersOwn(s, es, e);
      }
    } else {
      var r :| r in s.inflight && Stale(s, r);
      OverlapIsWrong(s, r, 0);
    }
    hide Inv, AllAnswerOwn;
  }

  /** One call decides: after it every completion answers its own callbacks exactly if the call did not switch. */
  lemma OwnAnswersExactlyUntilSwitch(s: State, e: Event)
    requires Inv(s) && BlocksSilent(s) && NoOverlap(s) && Enabled(s, e)
    ensures AllAnswerOwn(Step(s, e)) <==> !Switches(s, e)
  {
    hide Inv, AllAnswerOwn, Step, Enabled, NoOverlap, Switches, BlocksSilent;
    StepKeepsInv(s, e);
    StepKeepsSilent(s, e);
    OverlapsExactlyOnSwitch(s, e);
    OwnAnswersExactlyWithoutOverlap(Step(s, e));
  }

  /** The reachable states meet these conditions. */
  lemma RunKeepsBoth(es: seq<Event>)
    requires IsRun(START, es)
    ensures Inv(After(START, es)) && BlocksSilent(After(START, es))
  {
    StartKeepsInv();
    RunKeepsInv(START, es);
    RunKeepsSilent(START, es);
    hide Inv;
  }
}
