/** The same machine as `ApiWrap` holds it: one table for all chats, and one table for each channel
    that has requests. */
module MessageDataApi {
  import opened MessageData
  import opened Locations

  type Table = map<MsgId, Request>

  /** The table of `w`; a channel without one has nothing waiting. */
  function TableAt(common: Table, channels: map<Channel, Table>, w: Where): Table {
    match w
    case Common => common
    case InChannel(c) => if c in channels then channels[c] else map[]
  }

  /** The entries of all tables, under their full keys. */
  ghost predicate Repr(common: Table, channels: map<Channel, Table>, entries: Entries) {
    forall k: Key :: Holds(TableAt(common, channels, k.where), entries, k)
  }

  ghost predicate Holds(t: Table, entries: Entries, k: Key) {
    (k in entries <==> k.msg in t) && (k in entries ==> entries[k] == t[k.msg])
  }

  /** `collectMessageIds`. */
  method CollectMessageIds(requests: Table) returns (result: set<MsgId>)
    ensures result == set m | m in requests && requests[m].requestId <= 0
  {
    result := {};
    var rest := requests.Keys;
    while rest != {}
      invariant rest <= requests.Keys
      invariant result == set m | m in requests.Keys - rest && requests[m].requestId <= 0
      decreases |rest|
    {
      var m :| m in rest;
      rest := rest - {m};
      if requests[m].requestId > 0 {
        continue;
      }
      result := result + {m};
    }
  }

  /** The tables with that of `w` replaced; a channel whose table is empty has none. */
  function WithTable(common: Table, channels: map<Channel, Table>, w: Where, t: Table): (Table, map<Channel, Table>) {
    match w
    case Common => (t, channels)
    case InChannel(c) => (common, if t == map[] then channels - {c} else channels[c := t])
  }

  ghost predicate NoEmpty(channels: map<Channel, Table>) {
    forall c :: c in channels ==> channels[c] != map[]
  }

  lemma TableAfter(common: Table, channels: map<Channel, Table>, w: Where, t: Table, v: Where)
    ensures var (common', channels') := WithTable(common, channels, w, t);
      TableAt(common', channels', v) == if v == w then t else TableAt(common, channels, v)
  {
  }

  /** Replacing one table: the other keys are untouched. */
  lemma Replace(common: Table, channels: map<Channel, Table>, entries: Entries, w: Where, t: Table, entries': Entries)
    requires Repr(common, channels, entries)
    requires forall k: Key :: k.where == w ==> Holds(t, entries', k)
    requires forall k: Key :: k.where != w ==>
      (k in entries' <==> k in entries) && (k in entries ==> entries'[k] == entries[k])
    ensures var (common', channels') := WithTable(common, channels, w, t); Repr(common', channels', entries')
  {
    hide WithTable, TableAt;
    var (common', channels') := WithTable(common, channels, w, t);
    forall k: Key ensures Holds(TableAt(common', channels', k.where), entries', k) {
      TableAfter(common, channels, w, t, k.where);
      if k.where == w {
        assert Holds(t, entries', k);
      } else {
        assert Holds(TableAt(common, channels, k.where), entries, k);
      }
    }
  }

  lemma Put(common: Table, channels: map<Channel, Table>, entries: Entries, w: Where, m: MsgId, r: Request)
    requires Repr(common, channels, entries)
    ensures Find(entries, Key(w, m)) == var t := TableAt(common, channels, w); if m in t then t[m] else Request(0, [])
    ensures var (common', channels') := WithTable(common, channels, w, TableAt(common, channels, w)[m := r]);
            Repr(common', channels', entries[Key(w, m) := r])
  {
    var t := TableAt(common, channels, w);
    assert Holds(t, entries, Key(w, m));
    forall k: Key | k.where == w ensures Holds(t[m := r], entries[Key(w, m) := r], k) {
      assert Holds(t, entries, k);
    }
    Replace(common, channels, entries, w, t[m := r], entries[Key(w, m) := r]);
  }

  /** One table after its unasked ids were asked for under `id`. */
  function AskedTable(t: Table, id: int): Table {
    map m | m in t :: if t[m].requestId <= 0 then Request(id, t[m].callbacks) else t[m]
  }

  lemma Ask(common: Table, channels: map<Channel, Table>, entries: Entries, w: Where, id: int)
    requires Repr(common, channels, entries)
    ensures var (common', channels') := WithTable(common, channels, w, AskedTable(TableAt(common, channels, w), id));
            Repr(common', channels', Asked(entries, w, id))
  {
    var t := TableAt(common, channels, w);
    forall k: Key | k.where == w ensures Holds(AskedTable(t, id), Asked(entries, w, id), k) {
      assert Holds(t, entries, k);
    }
    Replace(common, channels, entries, w, AskedTable(t, id), Asked(entries, w, id));
  }

  function KeptTable(t: Table, id: int): Table {
    map m | m in t && t[m].requestId != id :: t[m]
  }

  lemma Keep(common: Table, channels: map<Channel, Table>, entries: Entries, w: Where, id: int)
    requires Repr(common, channels, entries)
    ensures var (common', channels') := WithTable(common, channels, w, KeptTable(TableAt(common, channels, w), id));
            Repr(common', channels', entries - Owned(entries, w, id))
  {
    var t := TableAt(common, channels, w);
    forall k: Key | k.where == w ensures Holds(KeptTable(t, id), entries - Owned(entries, w, id), k) {
      assert Holds(t, entries, k);
    }
    Replace(common, channels, entries, w, KeptTable(t, id), entries - Owned(entries, w, id));
  }

  lemma UnaskedInTable(t: Table, entries: Entries, w: Where)
    requires forall k: Key :: k.where == w ==> Holds(t, entries, k)
    ensures Unasked(entries, w) == set m | m in t && t[m].requestId <= 0
  {
    forall m | m in t && t[m].requestId <= 0 ensures m in Unasked(entries, w) {
      assert Holds(t, entries, Key(w, m));
      assert Key(w, m) in entries;
    }
    forall m | m in Unasked(entries, w) ensures m in t && t[m].requestId <= 0 {
      var k :| k in entries && k.where == w && entries[k].requestId <= 0 && k.msg == m;
      assert Holds(t, entries, k);
    }
  }

  lemma NoPart(entries: Entries)
    ensures Waiting(Part(entries, {})) == multiset{}
  {
    assert Part(entries, {}).Keys == {};
  }

  lemma PartGrows(entries: Entries, got: set<Key>, k: Key)
    requires got <= entries.Keys && k in entries && k !in got
    ensures Waiting(Part(entries, got + {k})) == Waiting(Part(entries, got)) + multiset(entries[k].callbacks)
  {
    WaitingAt(Part(entries, got + {k}), k);
    assert Part(entries, got + {k}) - {k} == Part(entries, got);
  }

  lemma EraseEmpty(common: Table, channels: map<Channel, Table>, entries: Entries, c: Channel)
    requires Repr(common, channels, entries) && c in channels && channels[c] == map[]
    ensures Repr(common, channels - {c}, entries)
    ensures forall k :: k in entries ==> k.where != InChannel(c)
    ensures Unasked(entries, InChannel(c)) == {}
  {
    forall k | k in entries ensures k.where != InChannel(c) {
      assert Holds(TableAt(common, channels, k.where), entries, k);
    }
    forall k: Key ensures Holds(TableAt(common, channels - {c}, k.where), entries, k) {
      assert TableAt(common, channels - {c}, k.where) == TableAt(common, channels, k.where);
      assert Holds(TableAt(common, channels, k.where), entries, k);
    }
  }

  class Api {
    var messageDataRequests: Table
    var channelMessageDataRequests: map<Channel, Table>
    var resolveQueued: bool
    // the sender
    var inflight: map<int, Batch>
    var nextId: int
    ghost var entries: Entries
    ghost var registered: multiset<Callback>
    ghost var fired: multiset<Callback>

    ghost predicate Valid()
      reads this
    {
      nextId > 0 && Repr(messageDataRequests, channelMessageDataRequests, entries)
    }

    ghost predicate NoEmptyTable()
      reads this
    {
      NoEmpty(channelMessageDataRequests)
    }

    ghost function View(): State
      reads this
    {
      State(entries, resolveQueued, inflight, nextId, registered, fired)
    }

    constructor ()
      ensures Valid() && NoEmptyTable() && View() == START
    {
      messageDataRequests, channelMessageDataRequests, resolveQueued := map[], map[], false;
      inflight, nextId, entries, registered, fired := map[], 1, map[], multiset{}, multiset{};
    }

    /** Writing a table back to where it belongs; a channel's empty table is dropped. */
    method SetTable(w: Where, t: Table)
      modifies this`messageDataRequests, this`channelMessageDataRequests
      ensures (messageDataRequests, channelMessageDataRequests)
           == WithTable(old(messageDataRequests), old(channelMessageDataRequests), w, t)
      ensures t != map[] ==> Others(w, old(channelMessageDataRequests), channelMessageDataRequests)
      ensures old(NoEmptyTable()) ==> NoEmptyTable()
    {
      match w {
        case Common => messageDataRequests := t;
        case InChannel(c) =>
          if t == map[] {
            channelMessageDataRequests := channelMessageDataRequests - {c};
          } else {
            channelMessageDataRequests := channelMessageDataRequests[c := t];
          }
      }
    }

    method RequestMessageData(w: Where, msg: MsgId, done: seq<Callback>)
      requires Valid() && NoEmptyTable() && |done| <= 1
      modifies this
      ensures Valid() && NoEmptyTable() && View() == Step(old(View()), Register(Key(w, msg), done))
    {
      var table := TableAt(messageDataRequests, channelMessageDataRequests, w);
      var request := if msg in table then table[msg] else Request(0, []);
      request := Request(request.requestId, request.callbacks + done);
      Put(messageDataRequests, channelMessageDataRequests, entries, w, msg, request);
      assert msg in table[msg := request];
      SetTable(w, table[msg := request]);
      entries := entries[Key(w, msg) := request];
      registered := registered + multiset(done);
      if request.requestId == 0 {
        resolveQueued := true;
      }
    }

    /** The second loop over a table: what was asked for gets the request id. */
    method MarkTable(w: Where, id: int)
      requires Valid() && Unasked(entries, w) != {}
      modifies this`messageDataRequests, this`channelMessageDataRequests, this`entries
      ensures Valid() && entries == Asked(old(entries), w, id)
      ensures Others(w, old(channelMessageDataRequests), channelMessageDataRequests)
    {
      var table := TableAt(messageDataRequests, channelMessageDataRequests, w);
      assert forall k: Key :: k.where == w ==> Holds(table, entries, k);
      hide Holds, Repr, Asked, AskedTable, Unasked, TableAt, WithTable, Others;
      UnaskedInTable(table, entries, w);
      Ask(messageDataRequests, channelMessageDataRequests, entries, w, id);
      var asked := MarkAsked(table, id);
      AskedNotEmpty(table, id);
      SetTable(w, asked);
      entries := Asked(entries, w, id);
    }

    /** One table of the resolver: collect, send, and mark what was asked for. */
    method AskOne(w: Where)
      requires Valid()
      modifies this
      ensures Valid() && View() == AskTable(old(View()), w)
      ensures Others(w, old(channelMessageDataRequests), channelMessageDataRequests)
    {
      var table := TableAt(messageDataRequests, channelMessageDataRequests, w);
      assert forall k: Key :: k.where == w ==> Holds(table, entries, k);
      hide Holds, Repr, Asked, Unasked, TableAt, Others;
      UnaskedInTable(table, entries, w);
      OthersSame(w, channelMessageDataRequests);
      var ids := CollectMessageIds(table);
      if ids != {} {
        var id := nextId;
        nextId := nextId + 1;
        inflight := inflight[id := Batch(w, ids)];
        MarkTable(w, id);
      }
    }

    /** One round of the loop over the channels. */
    method VisitChannel(c: Channel)
      requires Valid() && c in channelMessageDataRequests
      modifies this
      ensures Valid() && View() == AskTable(old(View()), InChannel(c))
      ensures c in channelMessageDataRequests ==> channelMessageDataRequests[c] != map[]
      ensures Rest(c, old(channelMessageDataRequests), channelMessageDataRequests)
    {
      if channelMessageDataRequests[c] == map[] {
        EraseEmpty(messageDataRequests, channelMessageDataRequests, entries, c);
        channelMessageDataRequests := channelMessageDataRequests - {c};
      } else {
        AskOne(InChannel(c));
      }
    }

    /** The loop over the channels; `s` is the state the resolver started in, `before` what it asked so far. */
    method AskChannels(ghost s: State, ghost before: seq<Where>) returns (ghost order: seq<Where>)
      requires Valid() && !resolveQueued && View().(queued := true) == AskTables(s, before)
      modifies this
      ensures Valid() && NoEmptyTable()
      ensures !resolveQueued && View().(queued := true) == AskTables(s, order)
      ensures before <= order && forall c :: c in old(channelMessageDataRequests) ==> InChannel(c) in order
    {
      hide Repr, AskTable, AskTables;
      order := before;
      var rest := channelMessageDataRequests.Keys;
      while rest != {}
        invariant Valid() && rest <= channelMessageDataRequests.Keys
        invariant !resolveQueued && View().(queued := true) == AskTables(s, order)
        invariant before <= order
        invariant forall c :: c in old(channelMessageDataRequests) && c !in rest ==> InChannel(c) in order
        invariant forall c :: c in channelMessageDataRequests && c !in rest ==> channelMessageDataRequests[c] != map[]
        decreases |rest|
      {
        var c :| c in rest;
        VisitChannel(c);
        AskTablesLast(s, order, InChannel(c));
        order := order + [InChannel(c)];
        rest := rest - {c};
      }
    }

    /** The queued resolver: the common table, then every channel that has one. */
    method ResolveMessageDatas() returns (ghost order: seq<Where>)
      requires Valid() && resolveQueued
      modifies this
      ensures Valid() && NoEmptyTable()
      ensures Enabled(old(View()), Resolve(order)) && View() == Step(old(View()), Resolve(order))
    {
      hide Repr, AskTable;
      ghost var s := View();
      order := [];
      resolveQueued := false;
      TablesKnown(messageDataRequests, channelMessageDataRequests, entries);
      if messageDataRequests == map[] && channelMessageDataRequests == map[] {
        return;
      }
      AskOne(Common);
      AskTablesLast(s, [], Common);
      order := AskChannels(s, [Common]);
    }

    /** The erasing loop over one table, and dropping the table when it became empty. */
    method TakeFromTable(w: Where, requestId: int) returns (callbacks: seq<Callback>)
      requires Valid()
      modifies this`messageDataRequests, this`channelMessageDataRequests, this`entries
      ensures Valid() && entries == old(entries) - Owned(old(entries), w, requestId)
      ensures multiset(callbacks) == Waiting(Part(old(entries), Owned(old(entries), w, requestId)))
      ensures old(NoEmptyTable()) ==> NoEmptyTable()
    {
      var table := TableAt(messageDataRequests, channelMessageDataRequests, w);
      assert forall k: Key :: k.where == w ==> Holds(table, entries, k);
      hide Waiting, Part, Owned, WithTable, KeptTable, TableAt, Repr, Holds;
      var kept;
      kept, callbacks := TakeOwned(table, w, requestId, entries);
      Keep(messageDataRequests, channelMessageDataRequests, entries, w, requestId);
      SetTable(w, kept);
      entries := entries - Owned(entries, w, requestId);
    }

    /** Done or fail of a batch: its entries leave the table, then their callbacks fire. */
    method FinalizeMessageDataRequest(requestId: int) returns (callbacks: seq<Callback>)
      requires Valid() && requestId in inflight
      modifies this
      ensures Valid() && View() == Step(old(View()), Complete(requestId))
      ensures old(NoEmptyTable()) ==> NoEmptyTable()
      ensures fired == old(fired) + multiset(callbacks)
    {
      hide Waiting, Part, Owned, Repr;
      var w := inflight[requestId].where;
      inflight := inflight - {requestId};
      callbacks := [];
      if w.InChannel? && w.channel !in channelMessageDataRequests {
        NoneOwned(messageDataRequests, channelMessageDataRequests, entries, w, requestId);
        return;
      }
      callbacks := TakeFromTable(w, requestId);
      fired := fired + multiset(callbacks);
    }
  }

  lemma NoneOwned(common: Table, channels: map<Channel, Table>, entries: Entries, w: Where, requestId: int)
    requires Repr(common, channels, entries) && w.InChannel? && w.channel !in channels
    ensures Waiting(Part(entries, Owned(entries, w, requestId))) == multiset{}
    ensures entries - Owned(entries, w, requestId) == entries
  {
    forall k | k in entries ensures k.where != w {
      assert Holds(TableAt(common, channels, k.where), entries, k);
    }
    assert Part(entries, Owned(entries, w, requestId)).Keys == {};
  }

  /** The erasing loop over one table. */
  method TakeOwned(table: Table, w: Where, requestId: int, ghost entries: Entries)
    returns (kept: Table, callbacks: seq<Callback>)
    requires forall k: Key :: k.where == w ==> Holds(table, entries, k)
    ensures kept == KeptTable(table, requestId)
    ensures multiset(callbacks) == Waiting(Part(entries, Owned(entries, w, requestId)))
  {
    hide Waiting, Part;
    kept, callbacks := table, [];
    var rest := table.Keys;
    NoPart(entries);
    assert Got(table, w, requestId, rest) == {};
    while rest != {}
      invariant rest <= table.Keys
      invariant kept == StillKept(table, requestId, rest)
      invariant Got(table, w, requestId, rest) <= entries.Keys
      invariant multiset(callbacks) == Waiting(Part(entries, Got(table, w, requestId, rest)))
      decreases |rest|
    {
      var m :| m in rest;
      TakeNext(table, w, requestId, rest, m);
      if table[m].requestId == requestId {
        assert Holds(table, entries, Key(w, m));
        PartGrows(entries, Got(table, w, requestId, rest), Key(w, m));
        callbacks := callbacks + table[m].callbacks;
        kept := kept - {m};
      }
      rest := rest - {m};
    }
    OwnedInTable(table, entries, w, requestId);
    assert Got(table, w, requestId, {}) == Owned(entries, w, requestId);
  }

  function StillKept(table: Table, requestId: int, rest: set<MsgId>): Table {
    map m | m in table && (m in rest || table[m].requestId != requestId) :: table[m]
  }

  ghost function Got(table: Table, w: Where, requestId: int, rest: set<MsgId>): set<Key> {
    set m | m in table && m !in rest && table[m].requestId == requestId :: Key(w, m)
  }

  lemma TakeNext(table: Table, w: Where, requestId: int, rest: set<MsgId>, m: MsgId)
    requires rest <= table.Keys && m in rest
    ensures var taken := table[m].requestId == requestId;
      && StillKept(table, requestId, rest - {m})
         == (if taken then StillKept(table, requestId, rest) - {m} else StillKept(table, requestId, rest))
      && Got(table, w, requestId, rest - {m})
         == (if taken then Got(table, w, requestId, rest) + {Key(w, m)} else Got(table, w, requestId, rest))
      && Key(w, m) !in Got(table, w, requestId, rest)
  {
  }

  lemma OwnedInTable(t: Table, entries: Entries, w: Where, requestId: int)
    requires forall k: Key :: k.where == w ==> Holds(t, entries, k)
    ensures Owned(entries, w, requestId) == set m | m in t && t[m].requestId == requestId :: Key(w, m)
  {
    var got := set m | m in t && t[m].requestId == requestId :: Key(w, m);
    forall k | k in Owned(entries, w, requestId) ensures k in got {
      assert Holds(t, entries, k);
      assert k == Key(w, k.msg);
    }
    forall k | k in got ensures k in Owned(entries, w, requestId) {
      assert Holds(t, entries, k);
    }
  }

  /** While a request is in flight its table exists, so its completion never returns early. */
  lemma CompletionFindsTable(common: Table, channels: map<Channel, Table>, s: State, requestId: int)
    requires Repr(common, channels, s.entries) && Structure(s)
    requires requestId in s.inflight && s.inflight[requestId].where.InChannel?
    ensures s.inflight[requestId].where.channel in channels
  {
    var b := s.inflight[requestId];
    var m :| m in b.ids;
    assert Holds(TableAt(common, channels, b.where), s.entries, Key(b.where, m));
  }

  lemma AskTablesLast(s: State, order: seq<Where>, w: Where)
    ensures AskTables(s, order + [w]) == AskTable(AskTables(s, order), w)
    ensures AskTable(AskTables(s, order), w)
         == AskTable(AskTables(s, order).(queued := false), w).(queued := AskTables(s, order).queued)
    ensures AskTable(AskTables(s, order), w).entries.Keys == AskTables(s, order).entries.Keys
    ensures AskTable(AskTables(s, order).(queued := false), w).queued == false
  {
    assert (order + [w])[..|order|] == order;
  }

  lemma TablesKnown(common: Table, channels: map<Channel, Table>, entries: Entries)
    requires Repr(common, channels, entries)
    ensures forall k :: k in entries ==> if k.where.InChannel? then k.where.channel in channels else common != map[]
    ensures forall w :: w in Tables(entries) ==> exists k :: k in entries && k.where == w
  {
    forall k | k in entries ensures if k.where.InChannel? then k.where.channel in channels else common != map[] {
      assert Holds(TableAt(common, channels, k.where), entries, k);
    }
  }

  /** Tables of channels other than `w` are as they were; that of `w` is not empty if it was not. */
  ghost predicate Others(w: Where, before: map<Channel, Table>, after: map<Channel, Table>) {
    && (forall c :: InChannel(c) != w ==> (c in after <==> c in before))
    && (forall c :: InChannel(c) != w && c in before ==> after[c] == before[c])
    && (forall c :: InChannel(c) == w && c in after && (c in before ==> before[c] != map[]) ==> after[c] != map[])
    && (forall c :: InChannel(c) == w && c in before ==> c in after)
  }

  ghost predicate Rest(c: Channel, before: map<Channel, Table>, after: map<Channel, Table>) {
    forall d :: d != c ==> (d in after <==> d in before) && (d in before ==> after[d] == before[d])
  }

  lemma OthersSame(w: Where, channels: map<Channel, Table>)
    ensures Others(w, channels, channels)
  {
  }

  lemma AskedNotEmpty(t: Table, id: int)
    requires (set m | m in t && t[m].requestId <= 0) != {}
    ensures AskedTable(t, id) != map[]
  {
    assert AskedTable(t, id).Keys == t.Keys;
    var m :| m in t && t[m].requestId <= 0;
    assert m in AskedTable(t, id);
  }

  method MarkAsked(requests: Table, id: int) returns (asked: Table)
    ensures asked == AskedTable(requests, id)
  {
    asked := requests;
    var rest := requests.Keys;
    while rest != {}
      invariant rest <= requests.Keys && asked.Keys == requests.Keys
      invariant forall m :: m in requests ==>
        asked[m] == if m in rest then requests[m] else AskedTable(requests, id)[m]
      decreases |rest|
    {
      var m :| m in rest;
      rest := rest - {m};
      if requests[m].requestId > 0 {
        continue;
      }
      asked := asked[m := Request(id, requests[m].callbacks)];
    }
  }
}
