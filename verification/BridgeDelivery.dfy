/** What the poller delivers, and a run in which the send path makes it deliver twice. */
module BridgeDelivery {
  import opened BridgeLog
  import opened BridgePush
  import opened BridgeRuns

  /** The rows sent for a peer, in sending order. */
  function SentTo(sent: seq<Frame>, p: Peer): seq<Row> {
    if sent == [] then []
    else
      var last := sent[|sent| - 1];
      SentTo(sent[..|sent| - 1], p) + (if last.MessageNew? && last.peer == p then [last.row] else [])
  }

  lemma {:induction false} BetweenAppend(log: seq<Row>, row: Row, p: Peer, lo: int, hi: int)
    requires IsLog(log + [row]) && hi < row.id
    ensures Between(log + [row], p, lo, hi) == Between(log, p, lo, hi)
    ensures Fresh(log, p, lo) <= Fresh(log + [row], p, lo)
  {
    assert (log + [row])[..|log|] == log;
  }

  /** Taking the first row above a mark: the rows up to it, and what is left above it. */
  lemma {:induction false} FirstAbove(log: seq<Row>, p: Peer, seed: int, mark: int)
    requires IsLog(log) && seed <= mark && Fresh(log, p, mark) != []
    ensures var m := Fresh(log, p, mark)[0];
      && m in log && mark < m.id
      && Between(log, p, seed, m.id) == Between(log, p, seed, mark) + [m]
      && Fresh(log, p, m.id) == Fresh(log, p, mark)[1..]
  {
    var front, last := log[..|log| - 1], log[|log| - 1];
    LastRow(log, p, mark);
    LastRow(log, p, last.id);
    LastBetween(log, p, seed, mark);
    LastBetween(log, p, seed, last.id);
    if Fresh(front, p, mark) == [] {
      NoneAbove(front, p, seed, mark, last.id);
      hide Fresh, Between;
    } else {
      FirstAbove(front, p, seed, mark);
      var m := Fresh(front, p, mark)[0];
      LastRow(log, p, m.id);
      LastBetween(log, p, seed, m.id);
      EarlierInLog(log, m);
      hide Fresh, Between, IsLog;
    }
  }

  lemma LastRow(log: seq<Row>, p: Peer, after: int)
    requires log != []
    ensures var last := log[|log| - 1];
      Fresh(log, p, after) == Fresh(log[..|log| - 1], p, after)
        + (if IsPushable(last, p) && after < last.id then [last] else [])
  {
  }

  lemma LastBetween(log: seq<Row>, p: Peer, lo: int, hi: int)
    requires log != []
    ensures var last := log[|log| - 1];
      Between(log, p, lo, hi) == Between(log[..|log| - 1], p, lo, hi)
        + (if IsPushable(last, p) && lo < last.id <= hi then [last] else [])
  {
  }

  lemma EarlierInLog(log: seq<Row>, m: Row)
    requires IsLog(log) && log != [] && m in log[..|log| - 1]
    ensures m in log && m.id < log[|log| - 1].id
  {
  }

  lemma {:induction false} NoneAbove(log: seq<Row>, p: Peer, seed: int, mark: int, hi: int)
    requires IsLog(log) && seed <= mark <= hi && Fresh(log, p, mark) == []
    ensures Between(log, p, seed, hi) == Between(log, p, seed, mark)
    ensures Fresh(log, p, hi) == []
    decreases |log|
  {
    if log != [] {
      NoneAbove(log[..|log| - 1], p, seed, mark, hi);
    }
  }

  /** The handler does not move the mark of p in this event: it lists other peers, or writes back for another one
      or nothing at all, or writes the mark that is there. */
  ghost predicate PollerMoves(s: State, e: Event, p: Peer)
    requires Enabled(s, e)
  {
    e.SessionsList? || e.WriteBack? ==> Mark(Step(s, e).watermarks, p) == Mark(s.watermarks, p)
  }

  /** Only the poller moves the mark of p in this run. */
  ghost predicate PollerMovesAlone(s: State, es: seq<Event>, p: Peer)
    requires IsRun(s, es)
    decreases |es|
  {
    es == [] || (PollerMoves(s, es[0], p) && PollerMovesAlone(Step(s, es[0]), es[1..], p))
  }

  ghost predicate SnapIs(todo: seq<Snap>, p: Peer, mark: int) {
    && (forall i :: 0 <= i < |todo| && todo[i].peer == p ==> todo[i].mark == mark)
    && (forall i, j :: 0 <= i < j < |todo| ==> todo[i].peer != todo[j].peer)
  }

  /** How far the rows of p have been sent. */
  function Reached(s: State, p: Peer): int {
    if s.poller.Bumping? && s.poller.peer == p then s.poller.row.id else Mark(s.watermarks, p)
  }

  function LastId(log: seq<Row>): int {
    if log == [] then 0 else log[|log| - 1].id
  }

  ghost predicate SnapsFor(s: State, p: Peer)
    requires p in s.watermarks
  {
    var mark := s.watermarks[p];
    match s.poller
    case Scanning(todo) => SnapIs(todo, p, mark)
    case Reading(snap, todo) =>
      SnapIs(todo, p, mark) && NotIn(snap.peer, todo) && (snap.peer == p ==> snap.mark == mark)
    case Pushing(q, rows, todo) =>
      SnapIs(todo, p, mark) && NotIn(q, todo) && (q == p ==> rows <= Fresh(s.log, p, mark))
    case Bumping(q, row, rows, todo) =>
      SnapIs(todo, p, mark) && NotIn(q, todo)
      && (q == p ==> mark < row.id && rows <= Fresh(s.log, p, row.id))
    case Announced(d, _) => d.peer != p
    case _ => true
  }

  ghost predicate Delivery(s: State, p: Peer, seed: int, before: seq<Row>) {
    && IsLog(s.log) && p in s.watermarks && seed <= s.watermarks[p] && Reached(s, p) <= LastId(s.log)
    && SentTo(s.sent, p) == before + Between(s.log, p, seed, Reached(s, p))
    && SnapsFor(s, p)
  }

  lemma DeliveryAppend(s: State, row: Row, p: Peer, seed: int, before: seq<Row>)
    requires Delivery(s, p, seed, before) && Enabled(s, Append(row))
    ensures Delivery(Step(s, Append(row)), p, seed, before)
  {
    hide Between, Fresh, SentTo;
    AppendKeepsLog(s.log, row);
    BetweenAppend(s.log, row, p, seed, Reached(s, p));
    BetweenAppend(s.log, row, p, s.watermarks[p], Reached(s, p));
    BetweenAppend(s.log, row, p, Reached(s, p), Reached(s, p));
  }

  lemma SentOne(sent: seq<Frame>, f: Frame, p: Peer)
    ensures SentTo(sent + [f], p) == SentTo(sent, p) + (if f.MessageNew? && f.peer == p then [f.row] else [])
  {
    assert (sent + [f])[..|sent|] == sent;
  }

  lemma DeliveryPush(s: State, p: Peer, seed: int, before: seq<Row>)
    requires Delivery(s, p, seed, before) && Enabled(s, Push)
    ensures Delivery(Step(s, Push), p, seed, before)
  {
    hide Between, Fresh, SentTo, SnapIs, NotIn, IsLog;
    var s' := Step(s, Push);
    var row := s.poller.rows[0];
    SentOne(s.sent, MessageNew(s.poller.peer, row), p);
    if s.poller.peer == p {
      FirstAbove(s.log, p, seed, s.watermarks[p]);
      assert row == Fresh(s.log, p, s.watermarks[p])[0];
      NotAboveLast(s.log, row);
      assert s.poller.rows[1..] <= Fresh(s.log, p, row.id);
      assert before + (Between(s.log, p, seed, s.watermarks[p]) + [row])
        == before + Between(s.log, p, seed, s.watermarks[p]) + [row];
    }
  }

  lemma NotAboveLast(log: seq<Row>, row: Row)
    requires IsLog(log) && row in log
    ensures row.id <= LastId(log)
  {
  }

  lemma DeliveryListing(s: State, e: Event, p: Peer, seed: int, before: seq<Row>)
    requires Delivery(s, p, seed, before) && Enabled(s, e) && PollerMoves(s, e, p)
    requires e.SessionsList? || e.Announce?
    ensures Delivery(Step(s, e), p, seed, before)
  {
    hide IsLog, Between, Fresh, Top, SentTo, SnapIs, NotIn, IsListing;
    if e.SessionsList? {
      ReseededMarks(s.watermarks, e.dialogs, s.log);
    } else {
      SentOne(s.sent, Step(s, e).sent[|s.sent|], p);
    }
  }

  lemma DeliveryOther(s: State, e: Event, p: Peer, seed: int, before: seq<Row>)
    requires Delivery(s, p, seed, before) && Enabled(s, e) && PollerMoves(s, e, p)
    requires !e.Append? && !e.Push? && !e.SessionsList? && !e.Announce?
    ensures Delivery(Step(s, e), p, seed, before)
  {
    hide IsLog, Between, Top, SentTo, Peers, IsListing;
  }

  /** While only the poller moves the mark of p, the rows sent for p are exactly its visible rows
      above the seed and up to the mark, oldest first, none missing and none twice. */
  lemma {:induction false} DeliversExactly(s: State, es: seq<Event>, p: Peer)
    requires IsLog(s.log) && s.poller.Idle? && p in s.watermarks && s.watermarks[p] <= LastId(s.log)
    requires IsRun(s, es) && PollerMovesAlone(s, es, p)
    ensures var t := After(s, es);
      && p in t.watermarks
      && SentTo(t.sent, p) == SentTo(s.sent, p) + Between(t.log, p, s.watermarks[p], Reached(t, p))
  {
    NoneBetween(s.log, p, s.watermarks[p]);
    DeliveryRun(s, es, p, s.watermarks[p], SentTo(s.sent, p));
  }

  lemma {:induction false} NoneBetween(log: seq<Row>, p: Peer, mark: int)
    ensures Between(log, p, mark, mark) == []
    decreases |log|
  {
    if log != [] {
      NoneBetween(log[..|log| - 1], p, mark);
    }
  }

  lemma {:induction false} DeliveryRun(s: State, es: seq<Event>, p: Peer, seed: int, before: seq<Row>)
    requires Delivery(s, p, seed, before)
    requires IsRun(s, es) && PollerMovesAlone(s, es, p)
    ensures Delivery(After(s, es), p, seed, before)
    decreases |es|
  {
    hide Delivery, Step, Enabled, PollerMoves;
    if es != [] {
      if es[0].Append? {
        DeliveryAppend(s, es[0].row, p, seed, before);
      } else if es[0].Push? {
        DeliveryPush(s, p, seed, before);
      } else if es[0].SessionsList? || es[0].Announce? {
        DeliveryListing(s, es[0], p, seed, before);
      } else {
        DeliveryOther(s, es[0], p, seed, before);
      }
      DeliveryRun(Step(s, es[0]), es[1..], p, seed, before);
    }
  }

  /** One row of a read: it is pushed, the mark moves to it, and the rest is what is left above the mark. */
  lemma PushAndBump(s: State, p: Peer) returns (t: State)
    requires IsLog(s.log) && p in s.watermarks && s.watermarks[p] >= 0
    requires s.poller.Pushing? && s.poller.peer == p && s.poller.rows == Fresh(s.log, p, s.watermarks[p])
    requires s.poller.rows != []
    ensures Leads(s, [Push, Bump], t)
    ensures t == s.(sent := t.sent, watermarks := s.watermarks[p := s.poller.rows[0].id],
                    poller := Pushing(p, s.poller.rows[1..], s.poller.todo))
    ensures t.poller.rows == Fresh(s.log, p, t.watermarks[p]) && t.watermarks[p] >= 0
    ensures SentTo(t.sent, p) == SentTo(s.sent, p) + [s.poller.rows[0]]
  {
    var mark := s.watermarks[p];
    FirstAbove(s.log, p, mark, mark);
    SentOne(s.sent, MessageNew(p, s.poller.rows[0]), p);
    hide Fresh, SentTo, IsLog, Leads;
    var s1 := Step(s, Push);
    t := Step(s1, Bump);
    AtOnce(t);
    Then(s1, Bump, [], t);
    Then(s, Push, [Bump], t);
    assert [Push] + ([Bump] + []) == [Push, Bump] && [Bump] + [] == [Bump];
  }

  lemma AtOnce(s: State)
    ensures Leads(s, [], s)
  {
  }

  /** What one read found is pushed to the last row: after it nothing visible is left above the mark. */
  lemma {:induction false} ReadDrains(s: State, p: Peer) returns (es: seq<Event>, t: State)
    requires IsLog(s.log) && p in s.watermarks
    requires s.poller.Pushing? && s.poller.peer == p && s.poller.rows == Fresh(s.log, p, s.watermarks[p])
    requires s.watermarks[p] >= 0
    ensures Leads(s, es, t) && t.log == s.log
    ensures t.poller == Pushing(p, [], s.poller.todo)
    ensures p in t.watermarks && Fresh(t.log, p, t.watermarks[p]) == []
    ensures SentTo(t.sent, p) == SentTo(s.sent, p) + Fresh(s.log, p, s.watermarks[p])
    decreases |s.poller.rows|
  {
    hide Step, Enabled, Leads, SentTo, Fresh, IsLog;
    if s.poller.rows == [] {
      es, t := [], s;
      AtOnce(s);
    } else {
      var next := PushAndBump(s, p);
      var rest;
      rest, t := ReadDrains(next, p);
      LeadsOn(s, [Push, Bump], next, rest, t);
      es := [Push, Bump] + rest;
      var rows := s.poller.rows;
      assert SentTo(s.sent, p) + [rows[0]] + rows[1..] == SentTo(s.sent, p) + rows;
    }
  }

  lemma {:induction false} Chain(states: seq<State>, es: seq<Event>)
    requires |states| == |es| + 1
    requires forall i :: 0 <= i < |es| ==> Enabled(states[i], es[i]) && Step(states[i], es[i]) == states[i + 1]
    ensures IsRun(states[0], es) && After(states[0], es) == states[|es|]
    decreases |es|
  {
    hide Enabled, Step;
    if es != [] {
      Chain(states[1..], es[1..]);
    }
  }

  // A run in which an agent reply and a second message are both pushed by the poller between the
  // read of the send path and its write.
  const R1 := Row(1, 7, true, true)
  const R2 := Row(2, 7, true, true)
  const BOTH := [MessageNew(7, R1), MessageNew(7, R2)]

  ghost const OVERTAKING: seq<Event> :=
    [SessionsList([Dialog(7, 0)]), SendStart(7), Append(R1), SendDone, PersistRead(true), Append(R2),
     TickStart([Snap(7, 0)]), Submit, ReadDone(true), Push, Bump, Push, Bump]

  ghost const OVERTAKEN: seq<State> :=
    [START,
     State([], {7}, map[7 := 0], Idle, Ready, 0, []),
     State([], {7}, map[7 := 0], Idle, Sending(7), 0, []),
     State([R1], {7}, map[7 := 0], Idle, Sending(7), 0, []),
     State([R1], {7}, map[7 := 0], Idle, Persisting(7, 0), 0, []),
     State([R1], {7}, map[7 := 0], Idle, Writing(7, [R1]), 0, []),
     State([R1, R2], {7}, map[7 := 0], Idle, Writing(7, [R1]), 0, []),
     State([R1, R2], {7}, map[7 := 0], Scanning([Snap(7, 0)]), Writing(7, [R1]), 0, []),
     State([R1, R2], {7}, map[7 := 0], Reading(Snap(7, 0), []), Writing(7, [R1]), 0, []),
     State([R1, R2], {7}, map[7 := 0], Pushing(7, [R1, R2], []), Writing(7, [R1]), 0, []),
     State([R1, R2], {7}, map[7 := 0], Bumping(7, R1, [R2], []), Writing(7, [R1]), 0, BOTH[..1]),
     State([R1, R2], {7}, map[7 := 1], Pushing(7, [R2], []), Writing(7, [R1]), 0, BOTH[..1]),
     State([R1, R2], {7}, map[7 := 1], Bumping(7, R2, [], []), Writing(7, [R1]), 0, BOTH),
     State([R1, R2], {7}, map[7 := 2], Pushing(7, [], []), Writing(7, [R1]), 0, BOTH)]

  lemma OvertakingList()
    ensures Enabled(OVERTAKEN[0], OVERTAKING[0]) && Step(OVERTAKEN[0], OVERTAKING[0]) == OVERTAKEN[1]
  {
    var ds := [Dialog(7, 0)];
    assert ds[0].peer in Peers(ds);
    ReseededMarks(map[], ds, []);
  }

  lemma OvertakingSend(i: nat)
    requires 1 <= i < 4 || i == 5
    ensures Enabled(OVERTAKEN[i], OVERTAKING[i]) && Step(OVERTAKEN[i], OVERTAKING[i]) == OVERTAKEN[i + 1]
  {
    hide Fresh, MaxId, Reseeded, IsItems;
    if i == 2 {
      assert [] + [R1] == [R1];
    } else if i == 5 {
      assert [R1] + [R2] == [R1, R2];
    }
  }

  lemma OvertakingPersist()
    ensures Enabled(OVERTAKEN[4], OVERTAKING[4]) && Step(OVERTAKEN[4], OVERTAKING[4]) == OVERTAKEN[5]
  {
    assert [R1][..0] == [] && Fresh([R1], 7, 0) == [R1];
  }

  lemma OvertakingTick(i: nat)
    requires 6 <= i < 8
    ensures Enabled(OVERTAKEN[i], OVERTAKING[i]) && Step(OVERTAKEN[i], OVERTAKING[i]) == OVERTAKEN[i + 1]
  {
    hide Fresh, MaxId, Reseeded;
    var items := [Snap(7, 0)];
    assert items[0].peer == 7 && items[1..] == [];
  }

  lemma OvertakingRead()
    ensures Enabled(OVERTAKEN[8], OVERTAKING[8]) && Step(OVERTAKEN[8], OVERTAKING[8]) == OVERTAKEN[9]
  {
    hide MaxId, Reseeded, IsItems;
    assert [R1][..0] == [] && Fresh([R1], 7, 0) == [R1];
    assert [R1, R2][..1] == [R1] && Fresh([R1, R2], 7, 0) == [R1, R2];
  }

  lemma OvertakingPushes(i: nat)
    requires 9 <= i < 13
    ensures Enabled(OVERTAKEN[i], OVERTAKING[i]) && Step(OVERTAKEN[i], OVERTAKING[i]) == OVERTAKEN[i + 1]
  {
    assert BOTH[..1] == [MessageNew(7, R1)] && BOTH == BOTH[..1] + [MessageNew(7, R2)];
    assert [R1, R2][1..] == [R2] && [R2][1..] == [];
  }

  /** The condition can fail in a run from the start. */
  lemma TwoRowsOvertakeTheWrite()
    ensures IsRun(START, OVERTAKING) && AllowedRun(START, OVERTAKING)
    ensures var s := After(START, OVERTAKING); Enabled(s, WriteBack) && !WriteBackCovers(s)
  {
    hide Enabled, Step, WriteBackCovers;
    forall i | 0 <= i < |OVERTAKING|
      ensures Enabled(OVERTAKEN[i], OVERTAKING[i]) && Step(OVERTAKEN[i], OVERTAKING[i]) == OVERTAKEN[i + 1]
    {
      OvertakingStep(i);
    }
    Chain(OVERTAKEN, OVERTAKING);
    NoWriteAllowed(START, OVERTAKING);
    OvertakenAtTheEnd();
  }

  lemma OvertakingStep(i: nat)
    requires i < |OVERTAKING|
    ensures Enabled(OVERTAKEN[i], OVERTAKING[i]) && Step(OVERTAKEN[i], OVERTAKING[i]) == OVERTAKEN[i + 1]
  {
    hide Enabled, Step;
    if i == 0 {
      OvertakingList();
    } else if i == 4 {
      OvertakingPersist();
    } else if i < 6 {
      OvertakingSend(i);
    } else if i < 8 {
      OvertakingTick(i);
    } else if i == 8 {
      OvertakingRead();
    } else {
      OvertakingPushes(i);
    }
  }

  lemma OvertakenAtTheEnd()
    ensures Enabled(OVERTAKEN[13], WriteBack) && !WriteBackCovers(OVERTAKEN[13])
  {
    hide Enabled, Step;
    WritingEnabled(OVERTAKEN[13]);
    assert BOTH[1] in BOTH;
  }

  lemma WritingEnabled(s: State)
    requires s.handler.Writing?
    ensures Enabled(s, WriteBack)
  {
  }
}
