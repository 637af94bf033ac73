/** What a rescan tells the client: the sessions that are new to the connection, each once. */
module BridgeRescan {
  import opened BridgeLog
  import opened BridgePush

  lemma PeersLast(dialogs: seq<Dialog>, d: Dialog)
    ensures Peers(dialogs + [d]) == Peers(dialogs) + {d.peer}
  {
    var all := dialogs + [d];
    assert all[|dialogs|] == d;
    forall p | p in Peers(dialogs) ensures p in Peers(all) {
      var i :| 0 <= i < |dialogs| && dialogs[i].peer == p;
      assert all[i].peer == p;
    }
  }

  lemma PeersFirst(d: Dialog, dialogs: seq<Dialog>)
    ensures Peers([d] + dialogs) == {d.peer} + Peers(dialogs)
  {
    var all := [d] + dialogs;
    assert all[0] == d;
    forall p | p in Peers(dialogs) ensures p in Peers(all) {
      var i :| 0 <= i < |dialogs| && dialogs[i].peer == p;
      assert all[i + 1].peer == p;
    }
  }

  /** The dialogs to announce, in listing order: their peers have no mark, and were not listed before. */
  function News(dialogs: seq<Dialog>, marked: set<Peer>): seq<Dialog>
    decreases |dialogs|
  {
    if dialogs == [] then []
    else
      var front, last := dialogs[..|dialogs| - 1], dialogs[|dialogs| - 1];
      News(front, marked) + (if last.peer !in marked && last.peer !in Peers(front) then [last] else [])
  }

  lemma {:induction false} NewsFirst(d: Dialog, dialogs: seq<Dialog>, marked: set<Peer>)
    ensures News([d] + dialogs, marked)
      == if d.peer in marked then News(dialogs, marked) else [d] + News(dialogs, marked + {d.peer})
    decreases |dialogs|
  {
    hide Peers;
    var all := [d] + dialogs;
    if dialogs == [] {
      assert all == [d] && all[..0] == [];
      NoPeers();
    } else {
      var front, last := dialogs[..|dialogs| - 1], dialogs[|dialogs| - 1];
      NewsFirst(d, front, marked);
      PeersFirst(d, front);
      assert all[..|dialogs|] == [d] + front && all[|dialogs|] == last;
    }
  }

  lemma NoPeers()
    ensures Peers([]) == {}
  {
  }

  ghost predicate Different(news: seq<Dialog>) {
    forall i, j :: 0 <= i < j < |news| ==> news[i].peer != news[j].peer
  }

  lemma LastDiffers(news: seq<Dialog>, d: Dialog)
    requires Different(news) && d.peer !in Peers(news)
    ensures Different(news + [d])
  {
  }

  lemma FirstDiffers(d: Dialog, news: seq<Dialog>)
    requires Different([d] + news)
    ensures Different(news) && d.peer !in Peers(news)
  {
    var all := [d] + news;
    assert forall i :: 0 <= i < |news| ==> all[i + 1] == news[i];
    assert all[0] == d;
  }

  /** The peers announced are the listed ones without a mark, none of them twice. */
  lemma {:induction false} NewsAre(dialogs: seq<Dialog>, marked: set<Peer>)
    ensures Peers(News(dialogs, marked)) == Peers(dialogs) - marked
    ensures Different(News(dialogs, marked))
    decreases |dialogs|
  {
    NoPeers();
    hide Peers;
    if dialogs != [] {
      var front, last := dialogs[..|dialogs| - 1], dialogs[|dialogs| - 1];
      var before := News(front, marked);
      NewsAre(front, marked);
      PeersLast(front, last);
      PeersLast(before, last);
      assert dialogs == front + [last];
      assert Peers(dialogs) - marked
        == if last.peer in marked then Peers(before) else Peers(before) + {last.peer};
      assert before + [] == before;
      hide Different;
      if last.peer !in Peers(before) {
        LastDiffers(before, last);
      }
    }
  }

  function Frames(news: seq<Dialog>): (r: seq<Frame>)
    ensures |r| == |news| && forall i :: 0 <= i < |news| ==> r[i] == DialogNew(news[i].peer)
  {
    seq(|news|, i requires 0 <= i < |news| => DialogNew(news[i].peer))
  }

  /** The marks of the announced peers are those of the listing, the others stay. */
  ghost predicate SeededWith(before: map<Peer, int>, after: map<Peer, int>, news: seq<Dialog>) {
    && (forall p :: p in after <==> p in before || p in Peers(news))
    && (forall p :: p in before && p !in Peers(news) ==> after[p] == before[p])
    && forall i :: 0 <= i < |news| && news[i].peer in after ==> after[news[i].peer] == news[i].top
  }

  // ---------- one rescan, whatever else happens meanwhile ----------

  /** The rescan goes on: neither a listing of the handler nor its write changes a mark meanwhile. */
  ghost predicate Rescanning(es: seq<Event>) {
    forall i :: 0 <= i < |es| ==> !es[i].SessionsList? && !es[i].WriteBack? && !es[i].RescanDone?
  }

  predicate InRescan(poller: Poller) { poller.Announcing? || poller.Announced? }

  /** What the rest of the rescan still announces. */
  function ToAnnounce(s: State): seq<Dialog>
    requires InRescan(s.poller)
  {
    if s.poller.Announcing? then News(s.poller.dialogs, s.watermarks.Keys)
    else News(s.poller.dialogs, s.watermarks.Keys + {s.poller.dialog.peer})
  }

  /** What it still seeds. */
  function ToSeed(s: State): seq<Dialog>
    requires InRescan(s.poller)
  {
    if s.poller.Announcing? then ToAnnounce(s) else [s.poller.dialog] + ToAnnounce(s)
  }

  /** What one step of the rescan does to what is left to announce and to seed. */
  ghost predicate StepsOn(s: State, t: State, seeds: bool)
    requires InRescan(s.poller)
  {
    && InRescan(t.poller)
    && t.sent + Frames(ToAnnounce(t)) == s.sent + Frames(ToAnnounce(s))
    && if seeds then
         && s.poller.Announced? && ToSeed(s) == [s.poller.dialog] + ToSeed(t)
         && t.watermarks == s.watermarks[s.poller.dialog.peer := s.poller.dialog.top]
       else t.watermarks == s.watermarks && ToSeed(t) == ToSeed(s)
  }

  lemma RescanAnnounce(s: State)
    requires Enabled(s, Announce)
    ensures StepsOn(s, Step(s, Announce), false)
  {
    hide News;
    var ds := s.poller.dialogs;
    NewsFirst(ds[0], ds[1..], s.watermarks.Keys);
    assert [ds[0]] + ds[1..] == ds;
    assert Frames(ToAnnounce(s)) == [DialogNew(ds[0].peer)] + Frames(ToAnnounce(Step(s, Announce)));
  }

  lemma RescanSkip(s: State)
    requires Enabled(s, Skip)
    ensures StepsOn(s, Step(s, Skip), false)
  {
    hide News;
    var ds := s.poller.dialogs;
    NewsFirst(ds[0], ds[1..], s.watermarks.Keys);
    assert [ds[0]] + ds[1..] == ds;
  }

  lemma RescanSeed(s: State)
    requires Enabled(s, Seed)
    ensures StepsOn(s, Step(s, Seed), true)
  {
    hide News;
    assert Step(s, Seed).watermarks.Keys == s.watermarks.Keys + {s.poller.dialog.peer};
  }

  lemma RescanStep(s: State, e: Event)
    requires InRescan(s.poller) && Enabled(s, e) && Rescanning([e])
    ensures StepsOn(s, Step(s, e), e.Seed?)
  {
    assert [e][0] == e;
    if e.Announce? {
      RescanAnnounce(s);
    } else if e.Skip? {
      RescanSkip(s);
    } else if e.Seed? {
      RescanSeed(s);
    } else {
      hide News, Fresh, Peers, IsListing, IsItems, Frames;
    }
  }

  lemma SeedsLater(before: map<Peer, int>, d: Dialog, after: map<Peer, int>, news: seq<Dialog>)
    requires SeededWith(before[d.peer := d.top], after, news) && d.peer !in Peers(news)
    ensures SeededWith(before, after, [d] + news)
  {
    hide Peers;
    PeersFirst(d, news);
  }

  lemma {:induction false} RescanRuns(s: State, es: seq<Event>)
    requires InRescan(s.poller) && IsRun(s, es) && Rescanning(es) && Different(ToSeed(s))
    requires After(s, es).poller == Announcing([])
    ensures After(s, es).sent == s.sent + Frames(ToAnnounce(s))
    ensures SeededWith(s.watermarks, After(s, es).watermarks, ToSeed(s))
    decreases |es|
  {
    hide Step, Enabled;
    if es == [] {
      assert Frames(ToAnnounce(s)) == [];
    } else {
      var e, t := es[0], Step(s, es[0]);
      RescanStep(s, e);
      hide InRescan, ToSeed, ToAnnounce, SeededWith, Different;
      if e.Seed? {
        FirstDiffers(s.poller.dialog, ToSeed(t));
        RescanRuns(t, es[1..]);
        SeedsLater(s.watermarks, s.poller.dialog, After(t, es[1..]).watermarks, ToSeed(t));
      } else {
        RescanRuns(t, es[1..]);
      }
    }
  }

  /**
   * A rescan that goes through its listing announces exactly the listed peers that had no mark, each once and in
   * listing order, and gives each of them the mark of the listing; it sends nothing else and moves no other mark.
   */
  lemma RescanAnnouncesTheNew(s: State, dialogs: seq<Dialog>, es: seq<Event>)
    requires Enabled(s, RescanRead(dialogs))
    requires IsRun(Step(s, RescanRead(dialogs)), es) && Rescanning(es)
    requires After(Step(s, RescanRead(dialogs)), es).poller == Announcing([])
    ensures var t, news := After(Step(s, RescanRead(dialogs)), es), News(dialogs, s.watermarks.Keys);
      && t.sent == s.sent + Frames(news)
      && SeededWith(s.watermarks, t.watermarks, news)
      && forall p :: DialogNew(p) in t.sent[|s.sent|..] <==> p in Peers(dialogs) && p !in s.watermarks
  {
    hide News, SeededWith, Different, IsListing, Step, InRescan, ToAnnounce, ToSeed, Peers;
    var s1 := Step(s, RescanRead(dialogs));
    var news := News(dialogs, s.watermarks.Keys);
    RescanStarts(s, dialogs);
    NewsAre(dialogs, s.watermarks.Keys);
    RescanRuns(s1, es);
    FramesOf(news);
    assert After(s1, es).sent[|s.sent|..] == Frames(news);
  }

  lemma RescanStarts(s: State, dialogs: seq<Dialog>)
    requires Enabled(s, RescanRead(dialogs))
    ensures var s1 := Step(s, RescanRead(dialogs));
      && InRescan(s1.poller) && s1.sent == s.sent && s1.watermarks == s.watermarks
      && ToAnnounce(s1) == ToSeed(s1) == News(dialogs, s.watermarks.Keys)
  {
    hide News, IsListing;
  }

  lemma FramesOf(news: seq<Dialog>)
    ensures forall p :: DialogNew(p) in Frames(news) <==> p in Peers(news)
  {
    forall p | p in Peers(news) ensures DialogNew(p) in Frames(news) {
      var i :| 0 <= i < |news| && news[i].peer == p;
      assert Frames(news)[i] == DialogNew(p);
    }
  }

  // ---------- over all runs: a mark given by a rescan and the announcement go together ----------

  /** A rescan seeds the mark of p in this run. */
  ghost predicate Seeds(s: State, es: seq<Event>, p: Peer)
    requires IsRun(s, es)
    decreases |es|
  {
    es != [] && ((es[0].Seed? && s.poller.dialog.peer == p) || Seeds(Step(s, es[0]), es[1..], p))
  }

  predicate AboutToSeed(s: State, p: Peer) { s.poller.Announced? && s.poller.dialog.peer == p }

  /** What is about to be seeded has been announced. */
  predicate AnnouncedFirst(s: State) { s.poller.Announced? ==> DialogNew(s.poller.dialog.peer) in s.sent }

  lemma AnnouncedStep(s: State, e: Event, p: Peer)
    requires AnnouncedFirst(s) && Enabled(s, e)
    ensures var t, now, seeded := Step(s, e), e.Announce? && s.poller.dialogs[0].peer == p,
        e.Seed? && s.poller.dialog.peer == p;
      && AnnouncedFirst(t)
      && (DialogNew(p) in t.sent <==> DialogNew(p) in s.sent || now)
      && (now ==> AboutToSeed(t, p))
      && (seeded ==> DialogNew(p) in s.sent)
      && (AboutToSeed(s, p) ==> AboutToSeed(t, p) || seeded)
  {
    hide Fresh, Reseeded, Peers, IsListing, IsItems, MaxId;
    if e.Announce? {
      assert Step(s, e).sent[|s.sent|] == DialogNew(s.poller.dialogs[0].peer);
    }
  }

  /** Over every run a peer has been announced exactly when a rescan gave it its mark, or is about to. */
  lemma {:induction false} AnnouncedExactlyWhenSeeded(s: State, es: seq<Event>, p: Peer)
    requires AnnouncedFirst(s) && IsRun(s, es)
    ensures DialogNew(p) in After(s, es).sent <==>
      DialogNew(p) in s.sent || Seeds(s, es, p) || AboutToSeed(After(s, es), p)
    ensures AboutToSeed(s, p) ==> Seeds(s, es, p) || AboutToSeed(After(s, es), p)
    decreases |es|
  {
    if es != [] {
      AnnouncedStep(s, es[0], p);
      AnnouncedExactlyWhenSeeded(Step(s, es[0]), es[1..], p);
    }
    hide Step, Enabled;
  }

  // ---------- when a rescan comes ----------

  function CountScans(es: seq<Event>): nat {
    if es == [] then 0 else (if es[0].ScanDone? then 1 else 0) + CountScans(es[1..])
  }

  /** A rescan follows every fifth tick that went through, and no other. */
  lemma RescanEveryFifthTick(s: State)
    requires Enabled(s, ScanDone)
    ensures Step(s, ScanDone).ticks == s.ticks + 1
    ensures Step(s, ScanDone).poller == if (s.ticks + 1) % 5 == 0 then Listing else Idle
  {
  }

  lemma {:induction false} TicksAreCounted(s: State, es: seq<Event>)
    requires IsRun(s, es)
    ensures After(s, es).ticks == s.ticks + CountScans(es)
    decreases |es|
  {
    if es != [] {
      TicksAreCounted(Step(s, es[0]), es[1..]);
    }
    hide IsListing, IsItems, Fresh, Reseeded, Peers, MaxId;
  }

  /** A tick that fails sends nothing, moves no mark and is not counted. */
  lemma FailureEndsTick(s: State)
    requires Enabled(s, TickFail)
    ensures Step(s, TickFail) == s.(poller := Idle)
  {
  }
}
