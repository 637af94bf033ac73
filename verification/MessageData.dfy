/** Requests for the data of single messages, coalesced into one server request per channel. */
module MessageData {
  import opened Locations

  datatype MsgId = MsgId(bare: int)
  type Callback = int

  datatype Key = Key(where: Where, msg: MsgId)

  datatype Request = Request(requestId: int, callbacks: seq<Callback>)

  /** One server request: the ids it asked for, all from one table. */
  datatype Batch = Batch(where: Where, ids: set<MsgId>)

  type Entries = map<Key, Request>

  datatype State = State(
    entries: Entries,
    queued: bool,             // a call of the resolver is queued
    inflight: map<int, Batch>,
    nextId: int,
    registered: multiset<Callback>,
    fired: multiset<Callback>)

  const START := State(map[], false, map[], 1, multiset{}, multiset{})

  datatype Event =
    | Register(key: Key, done: seq<Callback>)  // at most one callback
    | Resolve(order: seq<Where>)               // the tables in the order they are visited
    | Complete(requestId: int)                 // done or fail: the client does the same

  function Find(entries: Entries, key: Key): Request {
    if key in entries then entries[key] else Request(0, [])
  }

  /** `collectMessageIds`: what is still to be asked for in one table. */
  function Unasked(entries: Entries, w: Where): set<MsgId> {
    set k | k in entries && k.where == w && entries[k].requestId <= 0 :: k.msg
  }

  function Tables(entries: Entries): set<Where> {
    set k | k in entries && entries[k].requestId <= 0 :: k.where
  }

  function Asked(entries: Entries, w: Where, id: int): Entries {
    map k | k in entries ::
      if entries[k].requestId <= 0 && k.where == w then Request(id, entries[k].callbacks) else entries[k]
  }

  function Owned(entries: Entries, w: Where, requestId: int): set<Key> {
    set k | k in entries && k.where == w && entries[k].requestId == requestId
  }

  /** All callbacks that wait in some entry. */
  ghost function Waiting(entries: Entries): multiset<Callback>
    decreases |entries|
  {
    if entries.Keys == {} then multiset{}
    else
      var k :| k in entries.Keys;
      multiset(entries[k].callbacks) + Waiting(entries - {k})
  }

  ghost predicate Enabled(s: State, e: Event) {
    match e
    case Register(_, done) => |done| <= 1
    case Resolve(order) => s.queued && forall w :: w in Tables(s.entries) ==> w in order
    case Complete(requestId) => requestId in s.inflight
  }

  /** One table of the resolver: one request for all its unasked ids, under a fresh id. */
  function AskTable(s: State, w: Where): State {
    var ids := Unasked(s.entries, w);
    if ids == {} then s
    else
      s.(entries := Asked(s.entries, w, s.nextId), inflight := s.inflight[s.nextId := Batch(w, ids)],
         nextId := s.nextId + 1)
  }

  function AskTables(s: State, order: seq<Where>): State {
    if order == [] then s else AskTable(AskTables(s, order[..|order| - 1]), order[|order| - 1])
  }

  ghost function Step(s: State, e: Event): State
    requires Enabled(s, e)
  {
    match e
    case Register(key, done) =>
      var r := Find(s.entries, key);
      s.(entries := s.entries[key := Request(r.requestId, r.callbacks + done)],
         queued := s.queued || r.requestId == 0,
         registered := s.registered + multiset(done))
    case Resolve(order) => AskTables(s, order).(queued := false)
    case Complete(requestId) =>
      var owned := Owned(s.entries, s.inflight[requestId].where, requestId);
      s.(entries := s.entries - owned, inflight := s.inflight - {requestId},
         fired := s.fired + Waiting(Part(s.entries, owned)))
  }

  ghost predicate IsRun(s: State, es: seq<Event>)
    decreases |es|
  {
    es == [] || (Enabled(s, es[0]) && IsRun(Step(s, es[0]), es[1..]))
  }

  ghost function After(s: State, es: seq<Event>): State
    requires IsRun(s, es)
    decreases |es|
  {
    if es == [] then s else After(Step(s, es[0]), es[1..])
  }

  /** An entry with a request id is one the request with that id asked for. */
  ghost predicate EntriesAsked(s: State) {
    forall k :: k in s.entries ==>
      var id := s.entries[k].requestId;
      && id >= 0
      && (id > 0 ==> id in s.inflight && s.inflight[id].where == k.where && k.msg in s.inflight[id].ids)
  }

  /** An entry without one waits for a queued resolver. */
  ghost predicate RestQueued(s: State) {
    !s.queued ==> forall k :: k in s.entries ==> s.entries[k].requestId > 0
  }

  /** A request in flight asked for something, and all it asked for still waits for it. */
  ghost predicate BatchesWaited(s: State) {
    forall id :: id in s.inflight ==>
      && 0 < id < s.nextId && (exists m :: m in s.inflight[id].ids)
      && forall m :: m in s.inflight[id].ids ==>
           Key(s.inflight[id].where, m) in s.entries
           && s.entries[Key(s.inflight[id].where, m)].requestId == id
  }

  ghost predicate Conserved(s: State) {
    s.registered == Waiting(s.entries) + s.fired
  }

  ghost predicate Inv(s: State) {
    Structure(s) && RestQueued(s) && Conserved(s)
  }

  // ---------- sums over entries ----------

  lemma {:induction false} WaitingAt(entries: Entries, k: Key)
    requires k in entries
    ensures Waiting(entries) == multiset(entries[k].callbacks) + Waiting(entries - {k})
    decreases |entries|
  {
    var j :| j in entries.Keys && Waiting(entries) == multiset(entries[j].callbacks) + Waiting(entries - {j});
    hide Waiting;
    if j != k {
      Smaller(entries, j);
      Smaller(entries, k);
      WaitingAt(entries - {j}, k);
      WaitingAt(entries - {k}, j);
      assert entries - {j} - {k} == entries - {k} - {j};
    }
  }

  lemma Smaller(entries: Entries, k: Key)
    requires k in entries
    ensures |entries - {k}| < |entries|
  {
    assert (entries - {k}).Keys == entries.Keys - {k};
  }

  lemma WaitingUpdate(entries: Entries, k: Key, r: Request)
    ensures Waiting(entries[k := r]) == Waiting(entries - {k}) + multiset(r.callbacks)
  {
    WaitingAt(entries[k := r], k);
    assert entries[k := r] - {k} == entries - {k};
  }

  lemma {:induction false} WaitingSame(x: Entries, y: Entries)
    requires x.Keys == y.Keys && forall k :: k in x ==> x[k].callbacks == y[k].callbacks
    ensures Waiting(x) == Waiting(y)
    decreases |x|
  {
    if x.Keys != {} {
      var k :| k in x.Keys;
      WaitingAt(x, k);
      WaitingAt(y, k);
      Smaller(x, k);
      WaitingSame(x - {k}, y - {k});
    }
  }

  function Part(entries: Entries, owned: set<Key>): Entries
    requires owned <= entries.Keys
  {
    map k | k in owned :: entries[k]
  }

  lemma {:induction false} WaitingSplit(entries: Entries, owned: set<Key>)
    requires owned <= entries.Keys
    ensures Waiting(entries) == Waiting(entries - owned) + Waiting(Part(entries, owned))
    decreases |owned|
  {
    if owned == {} {
      assert entries - owned == entries;
      assert Part(entries, owned).Keys == {};
    } else {
      var k :| k in owned;
      assert k in Part(entries, owned) && Part(entries, owned)[k] == entries[k];
      hide Waiting, Part;
      WaitingAt(entries, k);
      WaitingAt(Part(entries, owned), k);
      SplitMaps(entries, owned, k);
      WaitingSplit(entries - {k}, owned - {k});
      Regroup(multiset(entries[k].callbacks), Waiting(entries - owned), Waiting(Part(entries, owned) - {k}));
    }
  }

  lemma Regroup(a: multiset<Callback>, b: multiset<Callback>, c: multiset<Callback>)
    ensures a + (b + c) == b + (a + c)
  {
  }

  lemma SplitMaps(entries: Entries, owned: set<Key>, k: Key)
    requires owned <= entries.Keys && k in owned
    ensures entries - {k} - (owned - {k}) == entries - owned
    ensures Part(entries - {k}, owned - {k}) == Part(entries, owned) - {k}
  {
  }

  // ---------- every step keeps the invariant ----------

  ghost predicate Structure(s: State) {
    s.nextId > 0 && EntriesAsked(s) && BatchesWaited(s)
  }

  lemma RegisterStructure(s: State, key: Key, done: seq<Callback>)
    requires Structure(s) && RestQueued(s) && Enabled(s, Register(key, done))
    ensures Structure(Step(s, Register(key, done))) && RestQueued(Step(s, Register(key, done)))
  {
  }

  lemma UnaskedKeys(entries: Entries, w: Where)
    ensures forall k :: k in entries && k.where == w && entries[k].requestId <= 0 ==> k.msg in Unasked(entries, w)
    ensures forall m :: m in Unasked(entries, w) ==> Key(w, m) in entries && entries[Key(w, m)].requestId <= 0
  {
    forall m | m in Unasked(entries, w) ensures Key(w, m) in entries && entries[Key(w, m)].requestId <= 0 {
      var k :| k in entries && k.where == w && entries[k].requestId <= 0 && k.msg == m;
      assert k == Key(w, m);
    }
  }

  lemma AskTableStructure(s: State, w: Where)
    requires Structure(s)
    ensures Structure(AskTable(s, w))
    ensures AskTable(s, w).entries.Keys == s.entries.Keys
    ensures forall k :: k in s.entries && AskTable(s, w).entries[k].requestId <= 0 ==>
              k.where != w && s.entries[k].requestId <= 0
  {
    hide Unasked, BatchesWaited, EntriesAsked, Asked;
    AskTableEntries(s, w);
    AskTableBatches(s, w);
  }

  lemma AskTableEntries(s: State, w: Where)
    requires Structure(s)
    ensures EntriesAsked(AskTable(s, w))
    ensures AskTable(s, w).entries.Keys == s.entries.Keys
    ensures forall k :: k in s.entries && AskTable(s, w).entries[k].requestId <= 0 ==>
              k.where != w && s.entries[k].requestId <= 0
  {
    hide Unasked, Asked;
    UnaskedKeys(s.entries, w);
    AskedKeys(s.entries, w, s.nextId);
  }

  lemma AskedKeys(entries: Entries, w: Where, id: int)
    ensures Asked(entries, w, id).Keys == entries.Keys
    ensures forall k :: k in entries ==>
      Asked(entries, w, id)[k].requestId
        == if entries[k].requestId <= 0 && k.where == w then id else entries[k].requestId
  {
  }

  lemma AskTableBatches(s: State, w: Where)
    requires Structure(s)
    ensures BatchesWaited(AskTable(s, w))
  {
    UnaskedKeys(s.entries, w);
    hide Unasked;
  }

  /** Every table visited has no unasked id left, the others are as they were. */
  lemma {:induction false} AskTablesStructure(s: State, order: seq<Where>)
    requires Structure(s)
    ensures Structure(AskTables(s, order))
    ensures AskTables(s, order).entries.Keys == s.entries.Keys
    ensures forall k :: k in s.entries && AskTables(s, order).entries[k].requestId <= 0 ==>
              k.where !in order && s.entries[k].requestId <= 0
  {
    hide Structure, AskTable;
    if order != [] {
      var front, w := order[..|order| - 1], order[|order| - 1];
      AskTablesStructure(s, front);
      AskTableStructure(AskTables(s, front), w);
      assert forall v :: v in order <==> v in front || v == w;
    }
  }

  lemma ResolveStructure(s: State, order: seq<Where>)
    requires Structure(s) && Enabled(s, Resolve(order))
    ensures Structure(Step(s, Resolve(order))) && RestQueued(Step(s, Resolve(order)))
  {
    AskTablesStructure(s, order);
    var t := AskTables(s, order);
    forall k | k in s.entries ensures t.entries[k].requestId > 0 {
      if s.entries[k].requestId <= 0 {
        assert k.where in Tables(s.entries);
      }
    }
  }

  /** A completion removes exactly the entries its request asked for. */
  lemma OwnedIsBatch(s: State, requestId: int)
    requires Structure(s) && requestId in s.inflight
    ensures var b := s.inflight[requestId];
      && Owned(s.entries, b.where, requestId) == (set m | m in b.ids :: Key(b.where, m))
      && Owned(s.entries, b.where, requestId) != {}
  {
    var b := s.inflight[requestId];
    var asked := set m | m in b.ids :: Key(b.where, m);
    forall k | k in Owned(s.entries, b.where, requestId) ensures k in asked {
      assert k == Key(b.where, k.msg);
    }
    var m :| m in b.ids;
    assert Key(b.where, m) in Owned(s.entries, b.where, requestId);
  }

  lemma CompleteStructure(s: State, requestId: int)
    requires Structure(s) && RestQueued(s) && Enabled(s, Complete(requestId))
    ensures Structure(Step(s, Complete(requestId))) && RestQueued(Step(s, Complete(requestId)))
  {
    hide Waiting;
  }

  lemma {:induction false} AskTablesConserves(s: State, order: seq<Where>)
    ensures var t := AskTables(s, order);
      Waiting(t.entries) == Waiting(s.entries) && t.fired == s.fired && t.registered == s.registered
  {
    hide Waiting;
    if order != [] {
      var front, w := order[..|order| - 1], order[|order| - 1];
      AskTablesConserves(s, front);
      var t := AskTables(s, front);
      WaitingSame(t.entries, AskTable(t, w).entries);
    }
  }

  lemma StepConserves(s: State, e: Event)
    requires Conserved(s) && Enabled(s, e)
    ensures Conserved(Step(s, e))
  {
    hide Waiting;
    match e {
      case Register(key, done) =>
        var r := Find(s.entries, key);
        WaitingUpdate(s.entries, key, Request(r.requestId, r.callbacks + done));
        if key in s.entries {
          WaitingAt(s.entries, key);
        } else {
          assert s.entries - {key} == s.entries;
        }
      case Resolve(order) =>
        AskTablesConserves(s, order);
      case Complete(requestId) =>
        WaitingSplit(s.entries, Owned(s.entries, s.inflight[requestId].where, requestId));
    }
  }

  lemma StepKeepsInv(s: State, e: Event)
    requires Inv(s) && Enabled(s, e)
    ensures Inv(Step(s, e))
  {
    hide Conserved, Enabled, Step;
    StepConserves(s, e);
    match e {
      case Register(key, done) => RegisterStructure(s, key, done);
      case Resolve(order) => ResolveStructure(s, order);
      case Complete(requestId) => CompleteStructure(s, requestId);
    }
  }

  lemma {:induction false} RunKeepsInv(s: State, es: seq<Event>)
    requires Inv(s) && IsRun(s, es)
    ensures Inv(After(s, es))
    decreases |es|
  {
    hide Inv, Enabled, Step;
    if es != [] {
      StepKeepsInv(s, es[0]);
      RunKeepsInv(Step(s, es[0]), es[1..]);
    }
  }

  /** No callback is lost and none fires more often than it was registered, over every run. */
  lemma CallbacksConserved(es: seq<Event>)
    requires IsRun(START, es)
    ensures var t := After(START, es);
      && t.registered == Waiting(t.entries) + t.fired
      && forall c :: t.fired[c] <= t.registered[c]
  {
    RunKeepsInv(START, es);
  }

  /** When nothing is queued and no request is outstanding, nothing waits: all callbacks have fired. */
  lemma QuietMeansAllFired(es: seq<Event>)
    requires IsRun(START, es)
    ensures var t := After(START, es);
      !t.queued && t.inflight == map[] ==> t.entries == map[] && t.fired == t.registered
  {
    RunKeepsInv(START, es);
    var t := After(START, es);
    if !t.queued && t.inflight == map[] {
      assert forall k :: k !in t.entries;
    }
  }
}
