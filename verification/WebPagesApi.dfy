/** The client's own code for pending web pages, against the state machine of `WebPages`. */
module WebPagesApi {
  import opened Basics
  import opened Locations
  import opened WebPages

  /** A channel's entry while the lists are collected: its index, and the messages to ask for. */
  datatype Indexed = Indexed(index: int, ids: seq<int>)

  /** The temporary number of an entry: -1 for the common list, -index - 2 for the list of a channel. */
  function Temporary(w: Where, idsByChannel: map<Channel, Indexed>): int
    requires w.InChannel? ==> w.channel in idsByChannel
  {
    if w.Common? then -1 else -idsByChannel[w.channel].index - 2
  }

  /** Channel indices are dense: distinct, and below the number of channels. */
  ghost predicate Dense(idsByChannel: map<Channel, Indexed>) {
    && (forall c :: c in idsByChannel ==> 0 <= idsByChannel[c].index < |idsByChannel|)
    && (forall c, d :: c in idsByChannel && d in idsByChannel && idsByChannel[c].index == idsByChannel[d].index ==>
      c == d)
  }

  /** The lists hold, per table, the messages of the entries to ask for. */
  ghost predicate Lists(
    pending: seq<Pending>, t: TimeId, till: map<Page, TimeId>, items: map<Page, Item>,
    ids: seq<int>, idsByChannel: map<Channel, Indexed>) {
    && ids == ItemIds(AskedIn(pending, t, till, items, Common), items)
    && forall c :: ListOf(pending, t, till, items, idsByChannel, c)
  }

  ghost predicate ListOf(
    pending: seq<Pending>, t: TimeId, till: map<Page, TimeId>, items: map<Page, Item>,
    idsByChannel: map<Channel, Indexed>, c: Channel) {
    var pages := AskedIn(pending, t, till, items, InChannel(c));
    if pages == [] then c !in idsByChannel
    else c in idsByChannel && idsByChannel[c].ids == ItemIds(pages, items)
  }

  /** An entry during the collecting: asked ones carry their temporary number. */
  ghost predicate Coded(
    p: Pending, q: Pending, t: TimeId, till: map<Page, TimeId>, items: map<Page, Item>,
    idsByChannel: map<Channel, Indexed>) {
    if IsAsked(p, t, till, items) then
      var w := items[p.page].where;
      (w.InChannel? ==> w.channel in idsByChannel) && q == Pending(p.page, Temporary(w, idsByChannel))
    else q == p
  }

  lemma OneMoreAsked(
    pending: seq<Pending>, i: nat, t: TimeId, till: map<Page, TimeId>, items: map<Page, Item>, w: Where)
    requires i < |pending|
    ensures var before := AskedIn(pending[..i], t, till, items, w);
      var p := pending[i];
      if IsAsked(p, t, till, items) && items[p.page].where == w then
        && AskedIn(pending[..i + 1], t, till, items, w) == before + [p.page]
        && ItemIds(before + [p.page], items) == ItemIds(before, items) + [items[p.page].id]
      else AskedIn(pending[..i + 1], t, till, items, w) == before
  {
    assert pending[..i + 1][..i] == pending[..i];
    var before := AskedIn(pending[..i], t, till, items, w);
    assert (before + [pending[i].page])[..|before|] == before;
  }

  lemma OneMoreLeft(pending: seq<Pending>, i: nat, t: TimeId, till: map<Page, TimeId>)
    requires i < |pending|
    ensures var before := TimeLeft(pending[..i], t, till);
      TimeLeft(pending[..i + 1], t, till) ==
        if pending[i].requestId <= 0 && Till(till, pending[i].page) > t
        then Min(before, Till(till, pending[i].page) - t) else before
  {
    assert pending[..i + 1][..i] == pending[..i];
  }

  /** One more message in a channel's list; the other lists, and all old indices, are kept. */
  ghost predicate Extends(before: map<Channel, Indexed>, after: map<Channel, Indexed>, channel: Channel, id: int) {
    && after.Keys == before.Keys + {channel}
    && after[channel].ids == (if channel in before then before[channel].ids else []) + [id]
    && (forall c :: c in before ==> after[c].index == before[c].index)
    && (forall c :: c in before && c != channel ==> after[c] == before[c])
  }

  /** One more page of a channel: a new channel gets the number of channels so far as its index. */
  method AddToChannel(idsByChannel: map<Channel, Indexed>, channel: Channel, id: int)
    returns (added: map<Channel, Indexed>)
    requires Dense(idsByChannel)
    ensures Dense(added) && Extends(idsByChannel, added, channel, id)
  {
    if channel !in idsByChannel {
      added := idsByChannel[channel := Indexed(|idsByChannel|, [id])];
      NewIndexIsDense(idsByChannel, channel, [id]);
    } else {
      var list := idsByChannel[channel];
      added := idsByChannel[channel := Indexed(list.index, list.ids + [id])];
      SameIndexIsDense(idsByChannel, channel, list.ids + [id]);
    }
    hide Dense;
  }

  lemma NewIndexIsDense(idsByChannel: map<Channel, Indexed>, channel: Channel, ids: seq<int>)
    requires Dense(idsByChannel) && channel !in idsByChannel
    ensures Dense(idsByChannel[channel := Indexed(|idsByChannel|, ids)])
  {
    assert |idsByChannel[channel := Indexed(|idsByChannel|, ids)]| == |idsByChannel| + 1;
  }

  lemma SameIndexIsDense(idsByChannel: map<Channel, Indexed>, channel: Channel, ids: seq<int>)
    requires Dense(idsByChannel) && channel in idsByChannel
    ensures Dense(idsByChannel[channel := Indexed(idsByChannel[channel].index, ids)])
  {
    assert idsByChannel[channel := Indexed(idsByChannel[channel].index, ids)].Keys == idsByChannel.Keys;
    assert |idsByChannel[channel := Indexed(idsByChannel[channel].index, ids)]| == |idsByChannel|;
  }

  lemma HasChannel(before: map<Channel, Indexed>, after: map<Channel, Indexed>, channel: Channel, id: int)
    requires Extends(before, after, channel, id)
    ensures channel in after
  {
  }

  lemma CodedKept(
    p: Pending, q: Pending, t: TimeId, till: map<Page, TimeId>, items: map<Page, Item>,
    before: map<Channel, Indexed>, after: map<Channel, Indexed>, channel: Channel, id: int)
    requires Coded(p, q, t, till, items, before) && Extends(before, after, channel, id)
    ensures Coded(p, q, t, till, items, after)
  {
  }

  lemma SkipKeepsLists(
    pending: seq<Pending>, i: nat, t: TimeId, till: map<Page, TimeId>, items: map<Page, Item>,
    ids: seq<int>, idsByChannel: map<Channel, Indexed>)
    requires i < |pending| && !IsAsked(pending[i], t, till, items)
    requires Lists(pending[..i], t, till, items, ids, idsByChannel)
    ensures Lists(pending[..i + 1], t, till, items, ids, idsByChannel)
  {
    hide AskedIn, ItemIds;
    OneMoreAsked(pending, i, t, till, items, Common);
    var next := pending[..i + 1];
    forall c ensures ListOf(next, t, till, items, idsByChannel, c) {
      assert ListOf(pending[..i], t, till, items, idsByChannel, c);
      OneMoreAsked(pending, i, t, till, items, InChannel(c));
    }
  }

  lemma CommonKeepsLists(
    pending: seq<Pending>, i: nat, t: TimeId, till: map<Page, TimeId>, items: map<Page, Item>,
    ids: seq<int>, idsByChannel: map<Channel, Indexed>)
    requires i < |pending| && IsAsked(pending[i], t, till, items) && items[pending[i].page].where.Common?
    requires Lists(pending[..i], t, till, items, ids, idsByChannel)
    ensures Lists(pending[..i + 1], t, till, items, ids + [items[pending[i].page].id], idsByChannel)
  {
    hide AskedIn, ItemIds;
    OneMoreAsked(pending, i, t, till, items, Common);
    var next := pending[..i + 1];
    forall c ensures ListOf(next, t, till, items, idsByChannel, c) {
      assert ListOf(pending[..i], t, till, items, idsByChannel, c);
      OneMoreAsked(pending, i, t, till, items, InChannel(c));
    }
  }

  lemma ChannelKeepsLists(
    pending: seq<Pending>, i: nat, t: TimeId, till: map<Page, TimeId>, items: map<Page, Item>,
    ids: seq<int>, before: map<Channel, Indexed>, after: map<Channel, Indexed>, channel: Channel)
    requires i < |pending| && IsAsked(pending[i], t, till, items) && items[pending[i].page].where == InChannel(channel)
    requires Lists(pending[..i], t, till, items, ids, before)
    requires Extends(before, after, channel, items[pending[i].page].id)
    ensures Lists(pending[..i + 1], t, till, items, ids, after)
  {
    hide AskedIn, ItemIds;
    OneMoreAsked(pending, i, t, till, items, Common);
    var next := pending[..i + 1];
    forall c ensures ListOf(next, t, till, items, after, c) {
      assert ListOf(pending[..i], t, till, items, before, c);
      OneMoreAsked(pending, i, t, till, items, InChannel(c));
      if c == channel && c !in before {
        NothingAsked(items);
      }
    }
  }

  lemma NothingAsked(items: map<Page, Item>)
    ensures ItemIds([], items) == []
  {
  }

  /** The lists, and the temporary numbers of the entries, after the first `i` entries. */
  ghost predicate Collected(
    pending: seq<Pending>, i: nat, t: TimeId, till: map<Page, TimeId>, items: map<Page, Item>,
    coded: seq<Pending>, ids: seq<int>, idsByChannel: map<Channel, Indexed>)
    requires i <= |pending|
  {
    && |coded| == |pending|
    && (forall j :: 0 <= j < i ==> Coded(pending[j], coded[j], t, till, items, idsByChannel))
    && (forall j :: i <= j < |pending| ==> coded[j] == pending[j])
    && Lists(pending[..i], t, till, items, ids, idsByChannel)
    && Dense(idsByChannel)
  }

  lemma CollectSkip(
    pending: seq<Pending>, i: nat, t: TimeId, till: map<Page, TimeId>, items: map<Page, Item>,
    coded: seq<Pending>, ids: seq<int>, idsByChannel: map<Channel, Indexed>)
    requires i < |pending| && !IsAsked(pending[i], t, till, items)
    requires Collected(pending, i, t, till, items, coded, ids, idsByChannel)
    ensures Collected(pending, i + 1, t, till, items, coded, ids, idsByChannel)
  {
    SkipKeepsLists(pending, i, t, till, items, ids, idsByChannel);
    hide Lists, Dense, IsAsked;
  }

  lemma CollectCommon(
    pending: seq<Pending>, i: nat, t: TimeId, till: map<Page, TimeId>, items: map<Page, Item>,
    coded: seq<Pending>, ids: seq<int>, idsByChannel: map<Channel, Indexed>)
    requires i < |pending| && IsAsked(pending[i], t, till, items) && items[pending[i].page].where.Common?
    requires Collected(pending, i, t, till, items, coded, ids, idsByChannel)
    ensures Collected(pending, i + 1, t, till, items,
      coded[i := Pending(pending[i].page, -1)], ids + [items[pending[i].page].id], idsByChannel)
  {
    CommonKeepsLists(pending, i, t, till, items, ids, idsByChannel);
    assert Coded(pending[i], Pending(pending[i].page, -1), t, till, items, idsByChannel);
    hide Lists, Dense, IsAsked, Coded;
  }

  lemma CollectChannel(
    pending: seq<Pending>, i: nat, t: TimeId, till: map<Page, TimeId>, items: map<Page, Item>,
    coded: seq<Pending>, ids: seq<int>, before: map<Channel, Indexed>, after: map<Channel, Indexed>, channel: Channel)
    requires i < |pending| && IsAsked(pending[i], t, till, items) && items[pending[i].page].where == InChannel(channel)
    requires Collected(pending, i, t, till, items, coded, ids, before)
    requires Extends(before, after, channel, items[pending[i].page].id) && Dense(after) && channel in after
    ensures Collected(pending, i + 1, t, till, items,
      coded[i := Pending(pending[i].page, -after[channel].index - 2)], ids, after)
  {
    ChannelKeepsLists(pending, i, t, till, items, ids, before, after, channel);
    forall j | 0 <= j < i ensures Coded(pending[j], coded[j], t, till, items, after) {
      CodedKept(pending[j], coded[j], t, till, items, before, after, channel, items[pending[i].page].id);
    }
    assert Coded(pending[i], Pending(pending[i].page, -after[channel].index - 2), t, till, items, after);
    hide Lists, Dense, IsAsked, Coded, Extends;
  }

  lemma CollectNothing(pending: seq<Pending>, t: TimeId, till: map<Page, TimeId>, items: map<Page, Item>)
    ensures Collected(pending, 0, t, till, items, pending, [], map[])
    ensures TimeLeft(pending[..0], t, till) == INT_MAX
  {
    assert pending[..0] == [];
  }

  /** The first loop of `resolveWebPages`. */
  method CollectDue(pending: seq<Pending>, t: TimeId, till: map<Page, TimeId>, items: map<Page, Item>)
    returns (coded: seq<Pending>, ids: seq<int>, idsByChannel: map<Channel, Indexed>, m: int)
    ensures Collected(pending, |pending|, t, till, items, coded, ids, idsByChannel)
    ensures Lists(pending, t, till, items, ids, idsByChannel) && Dense(idsByChannel)
    ensures m == TimeLeft(pending, t, till)
  {
    hide AskedIn, ItemIds, TimeLeft, Lists, Coded, Dense, Extends;
    coded, ids, idsByChannel, m := pending, [], map[], INT_MAX;
    CollectNothing(pending, t, till, items);
    for i := 0 to |pending|
      invariant Collected(pending, i, t, till, items, coded, ids, idsByChannel)
      invariant m == TimeLeft(pending[..i], t, till)
    {
      OneMoreLeft(pending, i, t, till);
      assert coded[i] == pending[i];
      var page := coded[i].page;
      if coded[i].requestId > 0 {
        CollectSkip(pending, i, t, till, items, coded, ids, idsByChannel);
        continue;
      }
      if Till(till, page) <= t {
        if page in items {
          var item := items[page];
          if item.where.InChannel? {
            ghost var before := idsByChannel;
            idsByChannel := AddToChannel(idsByChannel, item.where.channel, item.id);
            HasChannel(before, idsByChannel, item.where.channel, item.id);
            CollectChannel(pending, i, t, till, items, coded, ids, before, idsByChannel, item.where.channel);
            coded := coded[i := Pending(page, -idsByChannel[item.where.channel].index - 2)];
          } else {
            CollectCommon(pending, i, t, till, items, coded, ids, idsByChannel);
            ids := ids + [item.id];
            coded := coded[i := Pending(page, -1)];
          }
        } else {
          CollectSkip(pending, i, t, till, items, coded, ids, idsByChannel);
        }
      } else {
        CollectSkip(pending, i, t, till, items, coded, ids, idsByChannel);
        m := Min(m, Till(till, page) - t);
      }
    }
    assert pending[..|pending|] == pending;
  }

  /** Sending one more request. */
  lemma OneMoreAsk(s: State, t: TimeId, items: map<Page, Item>, sent: seq<Where>, w: Where)
    ensures NewAsks(s, t, items, sent + [w]) == NewAsks(s, t, items, sent)[s.nextId + |sent| := AskFor(s, t, items, w)]
  {
    hide AskFor, AskedIn, ItemIds;
    var more := sent + [w];
    assert more != [] && |more| - 1 == |sent| && more[|sent|] == w;
    assert more[..|sent|] == sent;
    assert NewAsks(s, t, items, more)
      == NewAsks(s, t, items, more[..|sent|])[s.nextId + |sent| := AskFor(s, t, items, w)];
  }

  /** The requests of the tables in `sent` are sent. */
  ghost predicate Sent(
    s: State, t: TimeId, items: map<Page, Item>, sent: seq<Where>, nextId: int, inflight: set<int>,
    asked: map<int, Ask>) {
    && nextId == s.nextId + |sent|
    && inflight == s.inflight + NewAsks(s, t, items, sent).Keys
    && asked == s.asked + NewAsks(s, t, items, sent)
  }

  lemma SendOne(
    s: State, t: TimeId, items: map<Page, Item>, sent: seq<Where>, nextId: int, inflight: set<int>,
    asked: map<int, Ask>, w: Where)
    requires Sent(s, t, items, sent, nextId, inflight, asked)
    ensures Sent(s, t, items, sent + [w], nextId + 1, inflight + {nextId}, asked[nextId := AskFor(s, t, items, w)])
  {
    hide NewAsks, AskFor;
    OneMoreAsk(s, t, items, sent, w);
  }

  lemma NextId(
    s: State, t: TimeId, items: map<Page, Item>, sent: seq<Where>, nextId: int, inflight: set<int>,
    asked: map<int, Ask>)
    requires Sent(s, t, items, sent, nextId, inflight, asked)
    ensures nextId == s.nextId + |sent|
  {
  }

  /** The ids of the channels outside `rest` are stored under the channels' indices. */
  ghost predicate Stored(
    common: seq<Where>, idsByChannel: map<Channel, Indexed>, rest: set<Channel>, sent: seq<Where>,
    reqsByIndex: seq<int>, firstId: int) {
    && |reqsByIndex| == |idsByChannel|
    && common <= sent && (forall j, k :: 0 <= j < k < |sent| ==> sent[j] != sent[k])
    && (forall w :: w in sent <==> w in common || (w.InChannel? && w.channel in idsByChannel && w.channel !in rest))
    && forall c :: c in idsByChannel && c !in rest ==>
      IdStored(idsByChannel[c].index, reqsByIndex, sent, firstId, InChannel(c))
  }

  ghost predicate IdStored(index: int, reqsByIndex: seq<int>, sent: seq<Where>, firstId: int, w: Where) {
    0 <= index < |reqsByIndex| && w in sent && reqsByIndex[index] == firstId + Index(sent, w)
  }

  lemma {:induction false} IndexGrows(sent: seq<Where>, w: Where, last: Where)
    requires w in sent
    ensures Index(sent + [last], w) == Index(sent, w)
  {
    if sent[0] != w {
      assert (sent + [last])[1..] == sent[1..] + [last];
      IndexGrows(sent[1..], w, last);
    }
  }

  lemma {:induction false} IndexOfLast(sent: seq<Where>, last: Where)
    requires last !in sent
    ensures Index(sent + [last], last) == |sent|
  {
    if sent != [] {
      assert (sent + [last])[1..] == sent[1..] + [last];
      IndexOfLast(sent[1..], last);
    }
  }

  lemma StoreOne(
    common: seq<Where>, idsByChannel: map<Channel, Indexed>, rest: set<Channel>, sent: seq<Where>,
    reqsByIndex: seq<int>, firstId: int, c: Channel)
    requires Dense(idsByChannel) && c in idsByChannel && c !in rest && InChannel(c) !in common
    requires Stored(common, idsByChannel, rest + {c}, sent, reqsByIndex, firstId)
    ensures 0 <= idsByChannel[c].index < |reqsByIndex|
    ensures Stored(common, idsByChannel, rest, sent + [InChannel(c)],
      reqsByIndex[idsByChannel[c].index := firstId + |sent|], firstId)
  {
    var index := idsByChannel[c].index;
    var sent', reqs' := sent + [InChannel(c)], reqsByIndex[index := firstId + |sent|];
    IndexOfLast(sent, InChannel(c));
    forall d | d in idsByChannel && d !in rest
      ensures IdStored(idsByChannel[d].index, reqs', sent', firstId, InChannel(d)) {
      if d != c {
        assert IdStored(idsByChannel[d].index, reqsByIndex, sent, firstId, InChannel(d));
        IndexGrows(sent, InChannel(d), InChannel(c));
      }
    }
  }

  /** The erasing loop: the first `k` of the original entries are done, and `i` of them are kept. */
  ghost predicate GotSoFar(
    pending: seq<Pending>, k: int, requestId: int, before: map<Page, TimeId>, failed0: set<Page>,
    now: seq<Pending>, i: int, till: map<Page, TimeId>, failed: set<Page>) {
    && 0 <= k <= |pending| && 0 <= i <= |now|
    && now[..i] == Without(pending[..k], requestId) && now[i..] == pending[k..]
    && till == before + Zeros(GivenUp(pending[..k], requestId, before))
    && failed == failed0 + GivenUp(pending[..k], requestId, before)
  }

  lemma GotStart(pending: seq<Pending>, requestId: int, before: map<Page, TimeId>, failed: set<Page>)
    ensures GotSoFar(pending, 0, requestId, before, failed, pending, 0, before, failed)
  {
    assert GivenUp(pending[..0], requestId, before) == {};
    assert before + Zeros({}) == before;
  }

  lemma {:induction false} WithoutLast(p: seq<Pending>, last: Pending, requestId: int)
    ensures Without(p + [last], requestId)
      == Without(p, requestId) + (if last.requestId == requestId then [] else [last])
  {
    if p == [] {
      assert p + [last] == [last];
      assert [last][1..] == [];
    } else {
      assert (p + [last])[1..] == p[1..] + [last] && (p + [last])[0] == p[0];
      WithoutLast(p[1..], last, requestId);
      var head: seq<Pending> := if p[0].requestId == requestId then [] else [p[0]];
      assert Without(p, requestId) == head + Without(p[1..], requestId);
      assert Without(p + [last], requestId) == head + Without(p[1..] + [last], requestId);
    }
  }

  lemma NextIsNext(
    pending: seq<Pending>, k: int, requestId: int, before: map<Page, TimeId>, failed0: set<Page>,
    now: seq<Pending>, i: int, till: map<Page, TimeId>, failed: set<Page>)
    requires GotSoFar(pending, k, requestId, before, failed0, now, i, till, failed) && k < |pending|
    ensures i < |now| && now[i] == pending[k]
  {
    assert now[i..][0] == pending[k..][0];
  }

  lemma GotOther(
    pending: seq<Pending>, k: int, requestId: int, before: map<Page, TimeId>, failed0: set<Page>,
    now: seq<Pending>, i: int, till: map<Page, TimeId>, failed: set<Page>)
    requires GotSoFar(pending, k, requestId, before, failed0, now, i, till, failed) && k < |pending|
    requires pending[k].requestId != requestId
    ensures i < |now| && GotSoFar(pending, k + 1, requestId, before, failed0, now, i + 1, till, failed)
  {
    hide Without, GivenUp;
    assert now[i] == now[i..][0] && now[i + 1..] == now[i..][1..];
    assert pending[..k + 1] == pending[..k] + [pending[k]] && pending[k + 1..] == pending[k..][1..];
    WithoutLast(pending[..k], pending[k], requestId);
    GivenUpLast(pending[..k], pending[k], requestId, before);
    assert now[..i + 1] == now[..i] + [now[i]];
  }

  lemma ZeroMore(before: map<Page, TimeId>, gone: set<Page>, page: Page)
    ensures (before + Zeros(gone))[page := 0] == before + Zeros(gone + {page})
    ensures page in gone ==> Till(before + Zeros(gone), page) == 0
    ensures page !in gone ==> Till(before + Zeros(gone), page) == Till(before, page)
  {
  }

  lemma GotOwn(
    pending: seq<Pending>, k: int, requestId: int, before: map<Page, TimeId>, failed0: set<Page>,
    now: seq<Pending>, i: int, till: map<Page, TimeId>, failed: set<Page>)
    requires GotSoFar(pending, k, requestId, before, failed0, now, i, till, failed) && k < |pending|
    requires pending[k].requestId == requestId
    ensures i < |now|
    ensures var page, given := pending[k].page, Till(till, pending[k].page) > 0;
      GotSoFar(pending, k + 1, requestId, before, failed0, now[..i] + now[i + 1..], i,
        if given then till[page := 0] else till, if given then failed + {page} else failed)
  {
    hide Without, Till, Zeros;
    var page := pending[k].page;
    var gone := GivenUp(pending[..k], requestId, before);
    var next := now[..i] + now[i + 1..];
    assert now[i + 1..] == now[i..][1..];
    assert next[..i] == now[..i] && next[i..] == now[i + 1..];
    assert pending[..k + 1] == pending[..k] + [pending[k]] && pending[k + 1..] == pending[k..][1..];
    WithoutLast(pending[..k], pending[k], requestId);
    GivenUpLast(pending[..k], pending[k], requestId, before);
    GivenUpOnlyPositive(pending[..k], requestId, before, page);
    ZeroMore(before, gone, page);
    hide GivenUp;
    if page in gone {
      assert gone + {page} == gone;
    }
    assert failed0 + gone + {page} == failed0 + (gone + {page});
    assert gone + {} == gone;
  }

  lemma GivenUpOnlyPositive(p: seq<Pending>, requestId: int, till: map<Page, TimeId>, page: Page)
    ensures page in GivenUp(p, requestId, till) ==> Till(till, page) > 0
  {
  }

  lemma GivenUpLast(p: seq<Pending>, last: Pending, requestId: int, till: map<Page, TimeId>)
    ensures GivenUp(p + [last], requestId, till)
         == GivenUp(p, requestId, till)
            + (if last.requestId == requestId && Till(till, last.page) > 0 then {last.page} else {})
  {
  }

  lemma GotAll(
    pending: seq<Pending>, requestId: int, before: map<Page, TimeId>, failed0: set<Page>,
    now: seq<Pending>, till: map<Page, TimeId>, failed: set<Page>)
    requires GotSoFar(pending, |pending|, requestId, before, failed0, now, |now|, till, failed)
    ensures now == Without(pending, requestId)
    ensures till == before + Zeros(GivenUp(pending, requestId, before))
    ensures failed == failed0 + GivenUp(pending, requestId, before)
  {
    assert pending[..|pending|] == pending && now[..|now|] == now;
    hide Without, GivenUp, Zeros;
  }

  class Api {
    var webPagesPending: seq<Pending>
    var till: map<Page, TimeId>
    var failed: set<Page>
    var webPagesTimer: Timer
    var inflight: set<int>
    var nextId: int
    ghost var asked: map<int, Ask>
    ghost var stranded: set<Page>

    ghost function View(): State
      reads this
    {
      State(webPagesPending, till, failed, webPagesTimer, inflight, asked, nextId, stranded)
    }

    constructor ()
      ensures View() == START
    {
      webPagesPending, till, failed, webPagesTimer, inflight, nextId := [], map[], {}, Idle, {}, 1;
      asked, stranded := map[], {};
    }

    method RequestWebPageDelayed(page: Page, t: TimeId, now: int)
      modifies this`webPagesPending, this`webPagesTimer
      ensures View() == Step(old(View()), Delay(page, t, now))
    {
      if page in failed || Till(till, page) == 0 {
        return;
      }
      var there := Has(webPagesPending, page);
      if !there {
        webPagesPending := webPagesPending + [Pending(page, 0)];
      }
      var left := Wrapped(Wrapped(Till(till, page) - t) * 1000);
      if webPagesTimer.Idle? || left <= webPagesTimer.deadline - now {
        WaitPlusOneFits(Till(till, page), t);
        var wait: int32 := (if left < 0 then 0 else left) + 1;
        webPagesTimer := At(now + wait);
      }
    }

    /** The reply: the pages of exactly this request leave; those still waiting for a preview are given up. */
    method GotWebPages(requestId: int, applied: map<Page, TimeId>)
      requires requestId in inflight
      modifies this`webPagesPending, this`till, this`failed, this`inflight
      ensures View() == Step(old(View()), Got(requestId, applied))
    {
      hide Without, GotSoFar, GivenUp, Zeros;
      inflight := inflight - {requestId};
      till := till + applied;
      ghost var before, pending, failed0 := till, webPagesPending, failed;
      var i := 0;
      GotStart(pending, requestId, before, failed);
      while i < |webPagesPending|
        invariant 0 <= i <= |webPagesPending| && |webPagesPending| - i <= |pending|
        invariant inflight == old(inflight) - {requestId}
        invariant GotSoFar(pending, |pending| - (|webPagesPending| - i), requestId, before, failed0, webPagesPending,
          i, till, failed)
        decreases |webPagesPending| - i
      {
        ghost var k := |pending| - (|webPagesPending| - i);
        assert webPagesPending[i]
          == pending[k] by { NextIsNext(pending, k, requestId, before, failed0, webPagesPending, i, till, failed); }
        if webPagesPending[i].requestId == requestId {
          GotOwn(pending, k, requestId, before, failed0, webPagesPending, i, till, failed);
          var page := webPagesPending[i].page;
          if Till(till, page) > 0 {
            till := till[page := 0];
            failed := failed + {page};
          }
          webPagesPending := webPagesPending[..i] + webPagesPending[i + 1..];
        } else {
          GotOther(pending, k, requestId, before, failed0, webPagesPending, i, till, failed);
          i := i + 1;
        }
      }
      GotAll(pending, requestId, before, failed0, webPagesPending, till, failed);
    }

    method ClearWebPageRequest(page: Page)
      modifies this`webPagesPending, this`webPagesTimer
      ensures View() == Step(old(View()), Clear(page))
    {
      webPagesPending := WithoutPage(webPagesPending, page);
      if webPagesPending == [] && webPagesTimer.At? {
        webPagesTimer := Idle;
      }
    }

    method ClearWebPageRequests()
      modifies this`webPagesPending, this`webPagesTimer
      ensures View() == Step(old(View()), ClearAll)
    {
      webPagesPending := [];
      webPagesTimer := Idle;
    }

    /** The second loop: one request for each channel; its id is stored under the channel's index. */
    method AskChannels(
      ghost s: State, t: TimeId, ghost items: map<Page, Item>, idsByChannel: map<Channel, Indexed>,
      ghost common: seq<Where>)
      returns (reqsByIndex: seq<int>, ghost sent: seq<Where>)
      requires (common == [] || common == [Common]) && Dense(idsByChannel)
      requires forall c :: ListOf(s.pending, t, s.till, items, idsByChannel, c)
      requires Sent(s, t, items, common, nextId, inflight, asked)
      modifies this`inflight, this`nextId, this`asked
      ensures Stored(common, idsByChannel, {}, sent, reqsByIndex, s.nextId)
      ensures Sent(s, t, items, sent, nextId, inflight, asked)
    {
      hide Dense, ListOf, AskFor, NewAsks, Sent, IdStored;
      sent := common;
      reqsByIndex := seq(|idsByChannel|, _ => 0);
      var rest := idsByChannel.Keys;
      while rest != {}
        invariant rest <= idsByChannel.Keys
        invariant Stored(common, idsByChannel, rest, sent, reqsByIndex, s.nextId)
        invariant Sent(s, t, items, sent, nextId, inflight, asked)
        decreases |rest|
      {
        hide Stored;
        var c :| c in rest;
        assert rest - {c} + {c} == rest;
        rest := rest - {c};
        assert idsByChannel[c].ids == AskFor(s, t, items, InChannel(c)).ids by {
          assert ListOf(s.pending, t, s.till, items, idsByChannel, c);
          ListIsAsk(s, t, items, idsByChannel, c);
        }
        StoreOne(common, idsByChannel, rest, sent, reqsByIndex, s.nextId, c);
        assert nextId == s.nextId + |sent| by { NextId(s, t, items, sent, nextId, inflight, asked); }
        SendOne(s, t, items, sent, nextId, inflight, asked, InChannel(c));
        reqsByIndex := reqsByIndex[idsByChannel[c].index := nextId];
        asked := asked[nextId := AskFor(s, t, items, InChannel(c)).(ids := idsByChannel[c].ids)];
        sent := sent + [InChannel(c)];
        inflight := inflight + {nextId};
        nextId := nextId + 1;
      }
    }

    /** The request for messages outside channels. */
    method AskCommon(
      ghost s: State, t: TimeId, ghost items: map<Page, Item>, ids: seq<int>,
      ghost idsByChannel: map<Channel, Indexed>)
      returns (requestId: int, ghost common: seq<Where>)
      requires Lists(s.pending, t, s.till, items, ids, idsByChannel)
      requires nextId == s.nextId && inflight == s.inflight && asked == s.asked
      modifies this`inflight, this`nextId, this`asked
      ensures Sent(s, t, items, common, nextId, inflight, asked)
      ensures common == (if ids == [] then [] else [Common]) && requestId == if ids == [] then 0 else s.nextId
    {
      hide Lists, AskFor, NewAsks, Sent;
      requestId, common := 0, [];
      SentNothing(s, t, items);
      if ids != [] {
        requestId := nextId;
        CommonListIsAsk(s, t, items, ids, idsByChannel);
        SendOne(s, t, items, [], nextId, inflight, asked, Common);
        asked := asked[nextId := AskFor(s, t, items, Common).(ids := ids)];
        inflight := inflight + {nextId};
        nextId := nextId + 1;
        common := [Common];
        assert [] + [Common] == common;
      }
    }

    method ResolveWebPages(t: TimeId, now: int, items: map<Page, Item>) returns (ghost sent: seq<Where>)
      requires t > 0 && Inv(View())
      modifies this
      ensures Enabled(old(View()), Resolve(t, now, items, sent))
      ensures View() == Step(old(View()), Resolve(t, now, items, sent))
    {
      hide Step, Inv, Lists, Coded, Dense, AskedIn, ItemIds, TimeLeft, AskFor, NewAsks, Sent, Stored, IdStored, ListOf,
        Marked, Decoded, InBounds, Collected, AsksOnce, Stranded;
      ghost var s := View();
      var coded, ids, idsByChannel, m := CollectDue(webPagesPending, t, till, items);
      webPagesTimer := Idle;
      webPagesPending := coded;
      var requestId;
      ghost var common;
      requestId, common := AskCommon(s, t, items, ids, idsByChannel);
      ChannelLists(s.pending, t, s.till, items, ids, idsByChannel);
      var reqsByIndex;
      reqsByIndex, sent := AskChannels(s, t, items, idsByChannel, common);
      SentIsAsked(s, t, items, sent, common, ids, idsByChannel, reqsByIndex);
      AllDecoded(s, t, items, sent, common, coded, idsByChannel, requestId, reqsByIndex, ids);
      ghost var marked := Marked(s.pending, t, s.till, items, sent, s.nextId);
      if requestId != 0 || reqsByIndex != [] {
        webPagesPending := Decode(coded, requestId, reqsByIndex);
        assert webPagesPending == marked;
      }
      if m < INT_MAX {
        webPagesTimer := At(now + Min(m, DAY) * 1000);
      }
      stranded := Stranded(s, t, items);
      SentAll(s, t, items, sent, nextId, inflight, asked);
      ResolvedState(s, View(), t, now, items, sent);
    }
  }

  /** What the third loop makes of one entry. */
  function Decoded(q: Pending, requestId: int, reqsByIndex: seq<int>): Pending
    requires InBounds(q, reqsByIndex)
  {
    if q.requestId >= 0 then q
    else if q.requestId == -1 then Pending(q.page, requestId)
    else Pending(q.page, reqsByIndex[-q.requestId - 2])
  }

  predicate InBounds(q: Pending, reqsByIndex: seq<int>) {
    q.requestId < -1 ==> 0 <= -q.requestId - 2 < |reqsByIndex|
  }

  /** The third loop of `resolveWebPages`: temporary numbers become request ids. */
  method Decode(coded: seq<Pending>, requestId: int, reqsByIndex: seq<int>) returns (decoded: seq<Pending>)
    requires forall i :: 0 <= i < |coded| ==> InBounds(coded[i], reqsByIndex)
    ensures |decoded| == |coded|
    ensures forall i :: 0 <= i < |coded| ==> decoded[i] == Decoded(coded[i], requestId, reqsByIndex)
  {
    decoded := coded;
    for i := 0 to |coded|
      invariant |decoded| == |coded|
      invariant forall j :: 0 <= j < i ==> decoded[j] == Decoded(coded[j], requestId, reqsByIndex)
      invariant forall j :: i <= j < |coded| ==> decoded[j] == coded[j]
    {
      assert InBounds(coded[i], reqsByIndex);
      var pendingRequestId := decoded[i].requestId;
      if pendingRequestId > 0 {
        continue;
      } else if pendingRequestId < 0 {
        if pendingRequestId == -1 {
          decoded := decoded[i := Pending(decoded[i].page, requestId)];
        } else {
          decoded := decoded[i := Pending(decoded[i].page, reqsByIndex[-pendingRequestId - 2])];
        }
      }
    }
  }

  lemma AskedIsSent(s: State, t: TimeId, items: map<Page, Item>, sent: seq<Where>, i: nat)
    requires i < |s.pending| && AsksOnce(s, t, items, sent) && IsAsked(s.pending[i], t, s.till, items)
    ensures s.pending[i].page in items && items[s.pending[i].page].where in sent
    ensures items[s.pending[i].page].where.Common? ==> Index(sent, Common) == 0
  {
    AskedInExactly(s.pending, t, s.till, items, items[s.pending[i].page].where);
    hide AskedIn;
  }

  lemma ChannelStored(
    common: seq<Where>, idsByChannel: map<Channel, Indexed>, sent: seq<Where>, reqsByIndex: seq<int>, firstId: int,
    c: Channel)
    requires Stored(common, idsByChannel, {}, sent, reqsByIndex, firstId) && c in idsByChannel
    ensures IdStored(idsByChannel[c].index, reqsByIndex, sent, firstId, InChannel(c))
  {
  }

  /** Decoding gives each asked entry the id of its own table's request, and leaves the others alone. */
  lemma DecodedIsMarked(
    s: State, t: TimeId, items: map<Page, Item>, sent: seq<Where>, common: seq<Where>,
    coded: seq<Pending>, idsByChannel: map<Channel, Indexed>, requestId: int, reqsByIndex: seq<int>, i: nat)
    requires i < |s.pending| == |coded| && s.pending[i].requestId >= 0 && AsksOnce(s, t, items, sent)
    requires Coded(s.pending[i], coded[i], t, s.till, items, idsByChannel)
    requires Stored(common, idsByChannel, {}, sent, reqsByIndex, s.nextId)
    requires Common in sent ==> requestId == s.nextId
    ensures InBounds(coded[i], reqsByIndex)
    ensures Decoded(coded[i], requestId, reqsByIndex) == Marked(s.pending, t, s.till, items, sent, s.nextId)[i]
  {
    hide AskedIn, Stored, AsksOnce, IsAsked;
    var p := s.pending[i];
    if IsAsked(p, t, s.till, items) {
      AskedIsSent(s, t, items, sent, i);
      var w := items[p.page].where;
      if w.InChannel? {
        ChannelStored(common, idsByChannel, sent, reqsByIndex, s.nextId, w.channel);
      }
    }
  }

  /** The tables with requests are exactly those with something to ask for. */
  lemma SentIsAsked(
    s: State, t: TimeId, items: map<Page, Item>, sent: seq<Where>, common: seq<Where>,
    ids: seq<int>, idsByChannel: map<Channel, Indexed>, reqsByIndex: seq<int>)
    requires Lists(s.pending, t, s.till, items, ids, idsByChannel)
    requires Stored(common, idsByChannel, {}, sent, reqsByIndex, s.nextId)
    requires common == if ids == [] then [] else [Common]
    ensures AsksOnce(s, t, items, sent)
  {
    forall w ensures w in sent <==> AskedIn(s.pending, t, s.till, items, w) != [] {
      if w.InChannel? {
        assert ListOf(s.pending, t, s.till, items, idsByChannel, w.channel);
      }
    }
    hide AskedIn, ItemIds, IdStored;
  }

  lemma AllDecoded(
    s: State, t: TimeId, items: map<Page, Item>, sent: seq<Where>, common: seq<Where>,
    coded: seq<Pending>, idsByChannel: map<Channel, Indexed>, requestId: int, reqsByIndex: seq<int>, ids: seq<int>)
    requires Collected(s.pending, |s.pending|, t, s.till, items, coded, ids, idsByChannel)
    requires Inv(s) && AsksOnce(s, t, items, sent)
    requires Stored(common, idsByChannel, {}, sent, reqsByIndex, s.nextId)
    requires common == (if ids == [] then [] else [Common]) && requestId == if ids == [] then 0 else s.nextId
    ensures forall i :: 0 <= i < |coded| ==> InBounds(coded[i], reqsByIndex)
    ensures |coded| == |s.pending|
    ensures forall i :: 0 <= i < |coded| ==>
      Decoded(coded[i], requestId, reqsByIndex) == Marked(s.pending, t, s.till, items, sent, s.nextId)[i]
    ensures requestId == 0 && reqsByIndex == [] ==> coded == Marked(s.pending, t, s.till, items, sent, s.nextId)
  {
    var marked := Marked(s.pending, t, s.till, items, sent, s.nextId);
    if Common in sent {
      CommonSent(common, idsByChannel, sent, reqsByIndex, s.nextId);
    }
    forall i | 0 <= i < |coded|
      ensures InBounds(coded[i], reqsByIndex) && Decoded(coded[i], requestId, reqsByIndex) == marked[i]
      ensures requestId == 0 && reqsByIndex == [] ==> coded[i] == marked[i]
    {
      assert s.pending[i] in s.pending;
      DecodedIsMarked(s, t, items, sent, common, coded, idsByChannel, requestId, reqsByIndex, i);
      if requestId == 0 && reqsByIndex == [] {
        NothingCoded(s, t, items, sent, common, coded, idsByChannel, reqsByIndex, i);
      }
    }
    hide Coded, Lists, Stored, AsksOnce, Dense, Marked, RequestsOk;
  }

  lemma CommonSent(
    common: seq<Where>, idsByChannel: map<Channel, Indexed>, sent: seq<Where>, reqsByIndex: seq<int>, firstId: int)
    requires Stored(common, idsByChannel, {}, sent, reqsByIndex, firstId) && Common in sent
    ensures Common in common
  {
  }

  lemma NothingCoded(
    s: State, t: TimeId, items: map<Page, Item>, sent: seq<Where>, common: seq<Where>,
    coded: seq<Pending>, idsByChannel: map<Channel, Indexed>, reqsByIndex: seq<int>, i: nat)
    requires i < |s.pending| == |coded| && AsksOnce(s, t, items, sent) && reqsByIndex == [] && common == []
    requires Coded(s.pending[i], coded[i], t, s.till, items, idsByChannel)
    requires Stored(common, idsByChannel, {}, sent, reqsByIndex, s.nextId)
    ensures coded[i] == s.pending[i]
  {
    var p := s.pending[i];
    if IsAsked(p, t, s.till, items) {
      AskedInExactly(s.pending, t, s.till, items, items[p.page].where);
    }
    hide AskedIn;
  }

  lemma ResolvedState(s: State, s': State, t: TimeId, now: int, items: map<Page, Item>, sent: seq<Where>)
    requires t > 0 && AsksOnce(s, t, items, sent)
    requires s'.pending == Marked(s.pending, t, s.till, items, sent, s.nextId)
    requires s'.till == s.till && s'.failed == s.failed && s'.stranded == Stranded(s, t, items)
    requires s'.timer ==
      var m := TimeLeft(s.pending, t, s.till);
      if m < INT_MAX then At(now + Min(m, DAY) * 1000) else Idle
    requires s'.nextId == s.nextId + |sent|
    requires s'.inflight == s.inflight + NewAsks(s, t, items, sent).Keys
    requires s'.asked == s.asked + NewAsks(s, t, items, sent)
    ensures Enabled(s, Resolve(t, now, items, sent)) && s' == Step(s, Resolve(t, now, items, sent))
  {
  }

  lemma SentNothing(s: State, t: TimeId, items: map<Page, Item>)
    ensures Sent(s, t, items, [], s.nextId, s.inflight, s.asked)
  {
  }

  lemma SentAll(
    s: State, t: TimeId, items: map<Page, Item>, sent: seq<Where>, nextId: int, inflight: set<int>,
    asked: map<int, Ask>)
    requires Sent(s, t, items, sent, nextId, inflight, asked)
    ensures nextId == s.nextId + |sent|
    ensures inflight == s.inflight + NewAsks(s, t, items, sent).Keys
    ensures asked == s.asked + NewAsks(s, t, items, sent)
  {
  }

  lemma CommonListIsAsk(
    s: State, t: TimeId, items: map<Page, Item>, ids: seq<int>, idsByChannel: map<Channel, Indexed>)
    requires Lists(s.pending, t, s.till, items, ids, idsByChannel)
    ensures AskFor(s, t, items, Common).ids == ids
  {
  }

  lemma ChannelLists(
    pending: seq<Pending>, t: TimeId, till: map<Page, TimeId>, items: map<Page, Item>,
    ids: seq<int>, idsByChannel: map<Channel, Indexed>)
    requires Lists(pending, t, till, items, ids, idsByChannel)
    ensures forall c :: ListOf(pending, t, till, items, idsByChannel, c)
  {
  }

  lemma ListIsAsk(
    s: State, t: TimeId, items: map<Page, Item>, idsByChannel: map<Channel, Indexed>, c: Channel)
    requires ListOf(s.pending, t, s.till, items, idsByChannel, c) && c in idsByChannel
    ensures AskFor(s, t, items, InChannel(c)).ids == idsByChannel[c].ids
  {
  }

  method Has(pending: seq<Pending>, page: Page) returns (found: bool)
    ensures found == IsPending(pending, page)
  {
    for i := 0 to |pending|
      invariant forall j :: 0 <= j < i ==> pending[j].page != page
    {
      if pending[i].page == page {
        return true;
      }
    }
    return false;
  }
}
