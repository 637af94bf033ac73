/** What the write of the send path is for: a turn already streamed under a synthetic id is not shown again. */
module BridgeTurn {
  import opened BridgeLog
  import opened BridgePush
  import opened BridgeRuns

  ghost predicate StaleSnap(todo: seq<Snap>, p: Peer, x: int) {
    exists i :: 0 <= i < |todo| && todo[i].peer == p && todo[i].mark < x
  }

  /** The poller may still push the row: it holds the row, or a mark below it from before the write. */
  ghost predicate StillComing(poller: Poller, p: Peer, r: Row) {
    match poller
    case Scanning(todo) => StaleSnap(todo, p, r.id)
    case Reading(snap, todo) => (snap.peer == p && snap.mark < r.id) || StaleSnap(todo, p, r.id)
    case Pushing(q, rows, todo) => (q == p && r in rows) || StaleSnap(todo, p, r.id)
    case Bumping(q, _, rows, todo) => (q == p && r in rows) || StaleSnap(todo, p, r.id)
    case Announced(d, _) => d.peer == p && d.top < r.id
    case _ => false
  }

  /** Nothing under way in the send path can lower the mark of p below x again. */
  ghost predicate HandlerAbove(h: Handler, p: Peer, x: int) {
    match h
    case Persisting(q, after) => q == p ==> x <= after
    case Writing(q, persisted) => q == p ==> forall r :: r in persisted ==> x <= r.id
    case _ => true
  }

  /** The row lies below the mark of p, and below every mark that is still to be used. */
  ghost predicate Settled(s: State, p: Peer, r: Row) {
    && IsLog(s.log) && r in s.log && IsPushable(r, p)
    && p in s.watermarks && r.id <= s.watermarks[p]
    && HandlerAbove(s.handler, p, r.id) && !StillComing(s.poller, p, r)
  }

  lemma SettledPoller(s: State, e: Event, p: Peer, r: Row)
    requires Settled(s, p, r) && Enabled(s, e)
    requires e.TickStart? || e.Submit? || e.ReadDone? || e.PeerDone? || e.ScanDone? || e.TickFail?
    ensures Settled(Step(s, e), p, r)
  {
    if e.ReadDone? {
      FreshRows(s.log, s.poller.snap.peer, s.poller.snap.mark);
    }
    hide IsLog, Fresh;
  }

  lemma SettledPush(s: State, e: Event, p: Peer, r: Row)
    requires Settled(s, p, r) && Enabled(s, e) && (e.Push? || e.Bump?)
    ensures Settled(Step(s, e), p, r)
    ensures MessageNew(p, r) in Step(s, e).sent ==> MessageNew(p, r) in s.sent
  {
    hide IsLog, StaleSnap;
    if e.Push? {
      assert s.poller.rows[0] in s.poller.rows;
      assert forall x :: x in s.poller.rows[1..] ==> x in s.poller.rows;
    }
  }

  lemma SettledRescan(s: State, e: Event, p: Peer, r: Row)
    requires Settled(s, p, r) && Enabled(s, e)
    requires e.RescanRead? || e.Skip? || e.Announce? || e.Seed? || e.RescanDone?
    ensures Settled(Step(s, e), p, r)
    ensures MessageNew(p, r) in Step(s, e).sent ==> MessageNew(p, r) in s.sent
  {
    hide IsLog, StaleSnap;
  }

  lemma SettledHandler(s: State, e: Event, p: Peer, r: Row)
    requires Settled(s, p, r) && Enabled(s, e)
    requires e.SendStart? || e.SendFail? || e.SendDone? || e.PersistRead? || e.PersistFail? || e.WriteBack?
    ensures Settled(Step(s, e), p, r)
  {
    if e.PersistRead? {
      FreshRows(s.log, s.handler.peer, s.handler.after);
    } else if e.WriteBack? && s.handler.persisted != [] {
      MaxIdIsMaximum(s.handler.persisted);
    }
    hide IsLog, Fresh, StillComing;
  }

  lemma SettledOther(s: State, e: Event, p: Peer, r: Row)
    requires Settled(s, p, r) && Enabled(s, e) && (e.Append? || e.Remap? || e.SessionsList?)
    ensures Settled(Step(s, e), p, r)
  {
    if e.Append? {
      AppendKeepsLog(s.log, e.row);
    } else if e.SessionsList? {
      ReseededMarks(s.watermarks, e.dialogs, s.log);
      TopBounds(s.log, p);
    }
    hide IsLog, Top, StaleSnap;
  }

  /** A settled row stays settled, whatever happens, and is not pushed. */
  lemma StepKeepsSettled(s: State, e: Event, p: Peer, r: Row)
    requires Settled(s, p, r) && Enabled(s, e)
    ensures Settled(Step(s, e), p, r)
    ensures MessageNew(p, r) in Step(s, e).sent ==> MessageNew(p, r) in s.sent
  {
    hide Settled;
    if e.TickStart? || e.Submit? || e.ReadDone? || e.PeerDone? || e.ScanDone? || e.TickFail? {
      SettledPoller(s, e, p, r);
    } else if e.Push? || e.Bump? {
      SettledPush(s, e, p, r);
    } else if e.RescanRead? || e.Skip? || e.Announce? || e.Seed? || e.RescanDone? {
      SettledRescan(s, e, p, r);
    } else if e.Append? || e.Remap? || e.SessionsList? {
      SettledOther(s, e, p, r);
    } else {
      SettledHandler(s, e, p, r);
    }
  }

  lemma {:induction false} RunKeepsSettled(s: State, es: seq<Event>, p: Peer, r: Row)
    requires Settled(s, p, r) && IsRun(s, es)
    ensures MessageNew(p, r) in After(s, es).sent ==> MessageNew(p, r) in s.sent
    decreases |es|
  {
    hide Settled, Step, Enabled;
    if es != [] {
      StepKeepsSettled(s, es[0], p, r);
      RunKeepsSettled(Step(s, es[0]), es[1..], p, r);
    }
  }

  // ---------- a row that may still come does come in some continuation ----------

  ghost predicate Shown(s: State, es: seq<Event>, p: Peer, r: Row)
    requires IsRun(s, es)
  {
    MessageNew(p, r) in After(s, es).sent
  }

  ghost predicate Comes(s: State, p: Peer, r: Row) {
    exists es :: IsRun(s, es) && Shown(s, es, p, r)
  }

  lemma ComesNow(s: State, p: Peer, r: Row)
    requires MessageNew(p, r) in s.sent
    ensures Comes(s, p, r)
  {
    assert IsRun(s, []) && Shown(s, [], p, r);
  }

  lemma ComesAfter(s: State, e: Event, p: Peer, r: Row)
    requires Enabled(s, e) && Comes(Step(s, e), p, r)
    ensures Comes(s, p, r)
  {
    hide Step, Enabled;
    var es :| IsRun(Step(s, e), es) && Shown(Step(s, e), es, p, r);
    assert ([e] + es)[1..] == es;
    assert IsRun(s, [e] + es) && Shown(s, [e] + es, p, r);
  }

  lemma {:induction false} ComesAlong(s: State, es: seq<Event>, t: State, p: Peer, r: Row)
    requires Leads(s, es, t) && Comes(t, p, r)
    ensures Comes(s, p, r)
    decreases |es|
  {
    hide Step, Enabled, Comes;
    if es != [] {
      ComesAlong(Step(s, es[0]), es[1..], t, p, r);
      ComesAfter(s, es[0], p, r);
    }
  }

  lemma {:induction false} ComesPushing(s: State, p: Peer, r: Row)
    requires s.poller.Pushing? && s.poller.peer == p && r in s.poller.rows
    ensures Comes(s, p, r)
    decreases |s.poller.rows|
  {
    hide Comes;
    var s1 := Step(s, Push);
    if s.poller.rows[0] == r {
      assert s1.sent[|s.sent|] == MessageNew(p, r);
      ComesNow(s1, p, r);
    } else {
      ComesPushing(Step(s1, Bump), p, r);
      ComesAfter(s1, Bump, p, r);
    }
    ComesAfter(s, Push, p, r);
  }

  lemma ComesReading(s: State, p: Peer, r: Row)
    requires IsLog(s.log) && r in s.log && IsPushable(r, p)
    requires s.poller.Reading? && s.poller.snap.peer == p && s.poller.snap.mark < r.id
    ensures Comes(s, p, r)
  {
    hide Comes;
    var s1 := Step(s, Remap({p}));
    FreshRows(s.log, p, s.poller.snap.mark);
    ComesPushing(Step(s1, ReadDone(true)), p, r);
    ComesAfter(s1, ReadDone(true), p, r);
    ComesAfter(s, Remap({p}), p, r);
  }

  lemma {:induction false} ComesScanning(s: State, p: Peer, r: Row)
    requires IsLog(s.log) && r in s.log && IsPushable(r, p)
    requires s.poller.Scanning? && StaleSnap(s.poller.todo, p, r.id)
    ensures Comes(s, p, r)
    decreases |s.poller.todo|, 0
  {
    hide Comes, IsLog;
    var todo := s.poller.todo;
    var s1 := Step(s, Submit);
    if todo[0].peer == p && todo[0].mark < r.id {
      ComesReading(s1, p, r);
    } else {
      LaterSnap(todo, p, r.id);
      ComesReadingOther(s1, p, r);
    }
    ComesAfter(s, Submit, p, r);
  }

  lemma LaterSnap(todo: seq<Snap>, p: Peer, x: int)
    requires StaleSnap(todo, p, x) && !(todo[0].peer == p && todo[0].mark < x)
    ensures StaleSnap(todo[1..], p, x)
  {
    var i :| 0 <= i < |todo| && todo[i].peer == p && todo[i].mark < x;
    assert todo[1..][i - 1] == todo[i];
  }

  /** A read for a peer looked at first, which finds nothing. */
  lemma {:induction false} ComesReadingOther(s: State, p: Peer, r: Row)
    requires IsLog(s.log) && r in s.log && IsPushable(r, p)
    requires s.poller.Reading? && StaleSnap(s.poller.todo, p, r.id)
    ensures Comes(s, p, r)
    decreases |s.poller.todo|, 1
  {
    hide Comes, IsLog, StaleSnap;
    var s1 := Step(s, ReadDone(false));
    var s2 := Step(s1, PeerDone);
    ComesScanning(s2, p, r);
    ComesAfter(s1, PeerDone, p, r);
    ComesAfter(s, ReadDone(false), p, r);
  }

  /** The rows pushed first are pushed, and the peer's turn comes. */
  lemma {:induction false} ComesPushingOther(s: State, p: Peer, r: Row)
    requires IsLog(s.log) && r in s.log && IsPushable(r, p)
    requires s.poller.Pushing? && StaleSnap(s.poller.todo, p, r.id)
    ensures Comes(s, p, r)
    decreases |s.poller.rows|
  {
    hide Comes, IsLog, StaleSnap;
    if s.poller.rows == [] {
      ComesScanning(Step(s, PeerDone), p, r);
      ComesAfter(s, PeerDone, p, r);
    } else {
      var s1 := Step(s, Push);
      ComesPushingOther(Step(s1, Bump), p, r);
      ComesAfter(s1, Bump, p, r);
      ComesAfter(s, Push, p, r);
    }
  }

  /** An announced dialog is given the older mark of its listing, and the next tick reads from there. */
  lemma ComesAnnounced(s: State, p: Peer, r: Row)
    requires IsLog(s.log) && r in s.log && IsPushable(r, p)
    requires s.poller.Announced? && s.poller.dialog.peer == p && s.poller.dialog.top < r.id
    ensures Comes(s, p, r)
  {
    hide Comes, IsLog, Leads;
    var s1 := Step(s, Seed);
    var es, s2 := Rest(s1, p);
    var items := ItemsFrom(s2.watermarks, p);
    assert items[0] == Snap(p, s.poller.dialog.top);
    ComesScanning(Step(s2, TickStart(items)), p, r);
    ComesAfter(s2, TickStart(items), p, r);
    ComesAlong(s1, es, s2, p, r);
    ComesAfter(s, Seed, p, r);
  }

  lemma StillComingComes(s: State, p: Peer, r: Row)
    requires IsLog(s.log) && r in s.log && IsPushable(r, p) && StillComing(s.poller, p, r)
    ensures Comes(s, p, r)
  {
    hide Comes, IsLog, StaleSnap;
    match s.poller
    case Scanning(_) => ComesScanning(s, p, r);
    case Reading(snap, todo) =>
      if StaleSnap(todo, p, r.id) {
        ComesReadingOther(s, p, r);
      } else {
        ComesReading(s, p, r);
      }
    case Pushing(_, _, todo) =>
      if StaleSnap(todo, p, r.id) {
        ComesPushingOther(s, p, r);
      } else {
        ComesPushing(s, p, r);
      }
    case Bumping(_, _, _, todo) =>
      if StaleSnap(todo, p, r.id) {
        ComesPushingOther(Step(s, Bump), p, r);
      } else {
        ComesPushing(Step(s, Bump), p, r);
      }
      ComesAfter(s, Bump, p, r);
    case Announced(_, _) => ComesAnnounced(s, p, r);
  }

  /**
   * A row at or below the newest row read back, such as those of the turn just streamed, is shown in no
   * continuation after the write, exactly when the poller has not pushed it before the write and neither
   * holds it nor is to read from a mark below it. A tick between the save and the write breaks this.
   */
  lemma TurnStaysStreamedExactlyWhen(s: State, p: Peer, r: Row)
    requires IsLog(s.log) && Enabled(s, WriteBack)
    requires s.handler.peer == p && s.handler.persisted != [] && r.id <= MaxId(s.handler.persisted)
    requires r in s.log && IsPushable(r, p)
    ensures var t := Step(s, WriteBack);
      (forall es :: IsRun(t, es) ==> !Shown(t, es, p, r)) <==>
        MessageNew(p, r) !in s.sent && !StillComing(s.poller, p, r)
  {
    hide IsLog, StillComing;
    var t := Step(s, WriteBack);
    if MessageNew(p, r) in s.sent {
      ComesNow(t, p, r);
    } else if StillComing(s.poller, p, r) {
      StillComingComes(t, p, r);
    } else {
      assert Settled(t, p, r);
      forall es | IsRun(t, es) ensures !Shown(t, es, p, r) {
        RunKeepsSettled(t, es, p, r);
      }
    }
  }
}
