/** What holds over whole runs of one connection. */
module BridgeRuns {
  import opened BridgeLog
  import opened BridgePush

  ghost predicate AllowedRun(s: State, es: seq<Event>)
    requires IsRun(s, es)
    decreases |es|
  {
    es == [] || (Allowed(s, es[0]) && AllowedRun(Step(s, es[0]), es[1..]))
  }

  lemma {:induction false} RunKeepsInv(s: State, es: seq<Event>)
    requires Inv(s) && IsRun(s, es) && AllowedRun(s, es)
    ensures Inv(After(s, es))
    decreases |es|
  {
    hide Inv, Step, Enabled, Allowed;
    if es != [] {
      StepKeepsInv(s, es[0]);
      RunKeepsInv(Step(s, es[0]), es[1..]);
    }
  }

  /** Safety: no database row reaches the client twice, whatever the two tasks and the other writers
      of the database do, as long as the send path's write covers what was pushed. */
  lemma NeverPushedTwice(es: seq<Event>)
    requires IsRun(START, es) && AllowedRun(START, es)
    ensures PushedOnce(After(START, es).sent)
  {
    RunKeepsInv(START, es);
  }

  ghost predicate DialogInv(s: State) { SentDialogs(s) && AnnouncedOnce(s.sent) }

  lemma StepKeepsDialogInv(s: State, e: Event)
    requires DialogInv(s) && Enabled(s, e)
    ensures DialogInv(Step(s, e))
  {
    if e.SessionsList? {
      ReseededMarks(s.watermarks, e.dialogs, s.log);
    } else if e.Announce? {
      var d := s.poller.dialogs[0];
      forall i | 0 <= i < |s.sent| && s.sent[i].DialogNew? ensures s.sent[i].peer != d.peer {
        assert DialogNew(s.sent[i].peer) == s.sent[i];
      }
    } else if e.Push? {
      assert forall f :: f in s.sent ==> f in Step(s, e).sent;
    }
  }

  /** A peer is announced at most once; this needs no condition on the send path. */
  lemma {:induction false} AnnouncedAtMostOnce(s: State, es: seq<Event>)
    requires DialogInv(s) && IsRun(s, es)
    ensures AnnouncedOnce(After(s, es).sent)
    decreases |es|
  {
    if es != [] {
      StepKeepsDialogInv(s, es[0]);
      AnnouncedAtMostOnce(Step(s, es[0]), es[1..]);
    }
  }

  // ---------- the condition on the write is necessary ----------

  /** The continuations used below are the poller's own: no write, no reseed, nothing appended or remapped. */
  ghost predicate PollerOnly(es: seq<Event>) {
    forall i :: 0 <= i < |es| ==> !es[i].WriteBack? && !es[i].SessionsList? && !es[i].Append? && !es[i].Remap?
  }

  ghost predicate Leads(s: State, es: seq<Event>, t: State) {
    IsRun(s, es) && After(s, es) == t && PollerOnly(es)
  }

  lemma {:induction false} LeadsOn(s: State, a: seq<Event>, t: State, b: seq<Event>, u: State)
    requires Leads(s, a, t) && Leads(t, b, u)
    ensures Leads(s, a + b, u)
    decreases |a|
  {
    hide Step, Enabled;
    if a == [] {
      assert a + b == b;
    } else {
      assert (a + b)[1..] == a[1..] + b && (a + b)[0] == a[0];
      LeadsOn(Step(s, a[0]), a[1..], t, b, u);
    }
  }

  lemma Then(s: State, e: Event, es: seq<Event>, t: State)
    requires Enabled(s, e) && PollerOnly([e]) && Leads(Step(s, e), es, t)
    ensures Leads(s, [e] + es, t)
  {
    hide Step, Enabled;
    assert ([e] + es)[1..] == es;
  }

  /** The poller can come to rest without touching the mark of p or losing a sent frame. */
  ghost predicate Rests(s: State, t: State, p: Peer) {
    && t.poller.Idle? && t.log == s.log && t.mapped == s.mapped && s.sent <= t.sent
    && p in s.watermarks && p in t.watermarks && t.watermarks[p] == s.watermarks[p]
  }

  function Distance(poller: Poller): nat {
    match poller
    case Absent => 0
    case Idle => 0
    case Scanning(_) => 2
    case Reading(_, _) => 1
    case Pushing(_, rows, _) => 3 + 2 * |rows|
    case Bumping(_, _, rows, _) => 4 + 2 * |rows|
    case Listing => 1
    case Announcing(dialogs) => 1 + 2 * |dialogs|
    case Announced(_, dialogs) => 2 + 2 * |dialogs|
  }

  function NextToRest(s: State): Event
    requires !s.poller.Absent? && !s.poller.Idle?
  {
    match s.poller
    case Scanning(todo) => if todo == [] then ScanDone else Submit
    case Reading(_, _) => TickFail
    case Pushing(_, rows, _) => if rows == [] then PeerDone else Push
    case Bumping(_, _, _, _) => Bump
    case Listing => TickFail
    case Announcing(dialogs) =>
      if dialogs == [] then RescanDone else if dialogs[0].peer in s.watermarks then Skip else Announce
    case Announced(_, _) => Seed
  }

  lemma {:induction false} Rest(s: State, p: Peer) returns (es: seq<Event>, t: State)
    requires p in s.watermarks && !s.poller.Absent? && !Owed(s.poller, p)
    requires s.poller.Announced? ==> s.poller.dialog.peer != p
    ensures Leads(s, es, t) && Rests(s, t, p)
    decreases Distance(s.poller)
  {
    if s.poller.Idle? {
      es, t := [], s;
    } else {
      var e := NextToRest(s);
      var rest;
      rest, t := Rest(Step(s, e), p);
      Then(s, e, rest, t);
      es := [e] + rest;
    }
  }

  lemma {:induction false} Items(m: map<Peer, int>) returns (items: seq<Snap>)
    ensures IsItems(items, m)
    decreases |m|, 1
  {
    if exists p :: p in m {
      var p :| p in m;
      items := ItemsFrom(m, p);
    } else {
      items := [];
    }
  }

  lemma Smaller(m: map<Peer, int>, p: Peer)
    requires p in m
    ensures |m - {p}| < |m|
  {
    assert (m - {p}).Keys == m.Keys - {p};
  }

  lemma {:induction false} ItemsFrom(m: map<Peer, int>, p: Peer) returns (items: seq<Snap>)
    requires p in m
    ensures IsItems(items, m) && items != [] && items[0] == Snap(p, m[p])
    decreases |m|, 0
  {
    Smaller(m, p);
    var rest := Items(m - {p});
    items := [Snap(p, m[p])] + rest;
    forall q | q in m ensures exists i :: 0 <= i < |items| && items[i].peer == q {
      if q == p {
        assert items[0].peer == q;
      } else {
        assert q in m - {p};
        var i :| 0 <= i < |rest| && rest[i].peer == q;
        assert items[i + 1].peer == q;
      }
    }
  }

  /** A tick whose reads all find nothing. */
  lemma {:induction false} QuietScan(s: State, todo: seq<Snap>) returns (es: seq<Event>, t: State)
    requires s.poller == Scanning(todo)
    ensures Leads(s, es, t)
    ensures t == s.(ticks := s.ticks + 1, poller := if (s.ticks + 1) % RESCAN_EVERY == 0 then Listing else Idle)
    decreases |todo|
  {
    if todo == [] {
      t := Step(s, ScanDone);
      Then(s, ScanDone, [], t);
      es := [ScanDone] + [];
    } else {
      var s1 := Step(s, Submit);
      var s2 := Step(s1, ReadDone(false));
      var s3 := Step(s2, PeerDone);
      var rest;
      rest, t := QuietScan(s3, todo[1..]);
      Then(s2, PeerDone, rest, t);
      Then(s1, ReadDone(false), [PeerDone] + rest, t);
      Then(s, Submit, [ReadDone(false)] + ([PeerDone] + rest), t);
      es := [Submit] + ([ReadDone(false)] + ([PeerDone] + rest));
    }
  }

  /** From rest, quiet ticks lead to the next listing. */
  lemma {:induction false} ToListing(s: State) returns (es: seq<Event>, t: State)
    requires s.poller.Idle?
    ensures Leads(s, es, t) && t.poller.Listing?
    ensures t == s.(ticks := t.ticks, poller := Listing)
    decreases RESCAN_EVERY - s.ticks % RESCAN_EVERY
  {
    var items := Items(s.watermarks);
    var s1 := Step(s, TickStart(items));
    var es1, s2 := QuietScan(s1, items);
    Then(s, TickStart(items), es1, s2);
    es, t := [TickStart(items)] + es1, s2;
    if s2.poller.Idle? {
      var es2;
      es2, t := ToListing(s2);
      LeadsOn(s, es, s2, es2, t);
      es := es + es2;
    }
  }

  /** A listing that holds p makes it mapped, and leaves its mark alone. */
  lemma MapAgain(s: State, p: Peer) returns (es: seq<Event>, t: State)
    requires s.poller.Idle? && p in s.watermarks
    ensures Leads(s, es, t) && t.poller.Idle? && p in t.mapped
    ensures t.log == s.log && t.sent == s.sent && t.watermarks == s.watermarks
  {
    var a, s1 := ToListing(s);
    var ds := [Dialog(p, Top(s.log, p))];
    var s2 := Step(s1, RescanRead(ds));
    var s3 := Step(s2, Skip);
    t := Step(s3, RescanDone);
    assert ds[0].peer in Peers(ds);
    Then(s3, RescanDone, [], t);
    Then(s2, Skip, [RescanDone] + [], t);
    Then(s1, RescanRead(ds), [Skip] + ([RescanDone] + []), t);
    LeadsOn(s, a, s1, [RescanRead(ds)] + ([Skip] + ([RescanDone] + [])), t);
    es := a + ([RescanRead(ds)] + ([Skip] + ([RescanDone] + [])));
  }

  /** Rows about to be pushed do get pushed; one of them was sent before. */
  lemma {:induction false} PushAgain(s: State, p: Peer, r: Row) returns (es: seq<Event>, t: State)
    requires s.poller.Pushing? && s.poller.peer == p && r in s.poller.rows
    requires MessageNew(p, r) in s.sent
    ensures Leads(s, es, t) && !PushedOnce(t.sent)
    decreases |s.poller.rows|
  {
    var s1 := Step(s, Push);
    if s.poller.rows[0] == r {
      var i :| 0 <= i < |s.sent| && s.sent[i] == MessageNew(p, r);
      assert s1.sent[i] == s1.sent[|s.sent|] == MessageNew(p, r);
      t := s1;
      Then(s, Push, [], t);
      es := [Push] + [];
    } else {
      var s2 := Step(s1, Bump);
      var rest;
      rest, t := PushAgain(s2, p, r);
      Then(s1, Bump, rest, t);
      Then(s, Push, [Bump] + rest, t);
      es := [Push] + ([Bump] + rest);
    }
  }

  /** From rest, a tick that looks at p first reads the rows above its mark again. */
  lemma ReadAgain(s: State, p: Peer, r: Row) returns (es: seq<Event>, t: State)
    requires IsLog(s.log) && MessageNew(p, r) in s.sent && r in s.log && IsPushable(r, p)
    requires s.poller.Idle? && p in s.mapped && p in s.watermarks && s.watermarks[p] < r.id
    ensures Leads(s, es, t) && !PushedOnce(t.sent)
  {
    var items := ItemsFrom(s.watermarks, p);
    var s1 := Step(s, TickStart(items));
    var s2 := Step(s1, Submit);
    var s3 := Step(s2, ReadDone(true));
    FreshRows(s.log, p, s.watermarks[p]);
    hide IsItems, Fresh, IsLog, PushedOnce, Leads;
    var c;
    c, t := PushAgain(s3, p, r);
    Then(s2, ReadDone(true), c, t);
    Then(s1, Submit, [ReadDone(true)] + c, t);
    Then(s, TickStart(items), [Submit] + ([ReadDone(true)] + c), t);
    es := [TickStart(items)] + ([Submit] + ([ReadDone(true)] + c));
  }

  /** Once the mark of a peer lies below a row it was sent, and nothing is about to raise it, the
      poller alone sends that row again. */
  lemma SentAgain(s: State, p: Peer, r: Row) returns (es: seq<Event>, t: State)
    requires IsLog(s.log) && MessageNew(p, r) in s.sent && r in s.log && IsPushable(r, p)
    requires p in s.watermarks && s.watermarks[p] < r.id
    requires !s.poller.Absent? && !Owed(s.poller, p)
    requires s.poller.Announced? ==> s.poller.dialog.peer != p
    ensures Leads(s, es, t) && !PushedOnce(t.sent)
  {
    hide IsLog, IsPushable, PushedOnce, Leads, Owed;
    var a, s1 := Rest(s, p);
    var b, s2 := MapAgain(s1, p);
    LeadsOn(s, a, s1, b, s2);
    var c;
    c, t := ReadAgain(s2, p, r);
    LeadsOn(s, a + b, s2, c, t);
    es := a + b + c;
  }

  lemma {:induction false} NoWriteAllowed(s: State, es: seq<Event>)
    requires IsRun(s, es) && forall i :: 0 <= i < |es| ==> !es[i].WriteBack?
    ensures AllowedRun(s, es)
    decreases |es|
  {
    if es != [] {
      NoWriteAllowed(Step(s, es[0]), es[1..]);
    }
  }

  /** In any state reached so far without a fault, the write of the send path is harmless in every
      continuation exactly when it covers what was pushed. */
  lemma WriteBackIsSafeExactlyWhenItCovers(s: State)
    requires Inv(s) && Enabled(s, WriteBack)
    ensures WriteBackCovers(s) <==>
            forall es :: IsRun(Step(s, WriteBack), es) && AllowedRun(Step(s, WriteBack), es) ==>
              PushedOnce(After(Step(s, WriteBack), es).sent)
  {
    var s' := Step(s, WriteBack);
    if WriteBackCovers(s) {
      StepKeepsInv(s, WriteBack);
      forall es | IsRun(s', es) && AllowedRun(s', es) ensures PushedOnce(After(s', es).sent) {
        RunKeepsInv(s', es);
      }
    } else {
      var h := s.handler;
      var r :| MessageNew(h.peer, r) in s.sent && r.id > MaxId(h.persisted);
      var es, t := SentAgain(s', h.peer, r);
      NoWriteAllowed(s', es);
      assert IsRun(s', es) && AllowedRun(s', es) && !PushedOnce(After(s', es).sent);
    }
  }

  /** A write that does not lower the mark always covers. */
  lemma RaisingWriteCovers(s: State)
    requires Inv(s) && s.handler.Writing? && s.handler.persisted != []
    requires MaxId(s.handler.persisted) >= Mark(s.watermarks, s.handler.peer)
    ensures WriteBackCovers(s)
  {
    hide PollerOk, SentRows, SentDialogs, PushedOnce, AnnouncedOnce, IsLog, MaxId, Owed;
    var p := s.handler.peer;
    if !Owed(s.poller, p) {
      forall r | MessageNew(p, r) in s.sent ensures r.id <= MaxId(s.handler.persisted) {
        assert r.id <= s.watermarks[p];
      }
    }
  }
}
