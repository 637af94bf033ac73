/** How requests for message data are coalesced: one request for each table, for all it still has to ask for. */
module MessageBatches {
  import opened Locations
  import opened MessageData

  /** What registering does: the callback joins, and a resolve is queued exactly for an entry that is not asked for. */
  lemma RegisteringJoins(s: State, key: Key, done: seq<Callback>)
    requires Enabled(s, Register(key, done))
    ensures var t, known := Step(s, Register(key, done)), key in s.entries;
      && t.entries.Keys == s.entries.Keys + {key}
      && t.entries[key].callbacks == (if known then s.entries[key].callbacks else []) + done
      && t.entries[key].requestId == (if known then s.entries[key].requestId else 0)
      && (forall k :: k in s.entries && k != key ==> t.entries[k] == s.entries[k])
      && (t.queued <==> s.queued || !known || s.entries[key].requestId == 0)
      && t.inflight == s.inflight && t.nextId == s.nextId && t.fired == s.fired
  {
    assert [] + done == done;
  }

  predicate Waits(s: State, k: Key) { k in s.entries && s.entries[k].requestId <= 0 }

  /** The request an entry has after its table has been visited or not. */
  function NewId(t: State, w: Where, k: Key): int
    requires k in t.entries
  {
    if t.entries[k].requestId <= 0 && k.where == w then t.nextId else t.entries[k].requestId
  }

  /** The entries after the tables of `order` have been visited. */
  ghost predicate Visited(s: State, t: State, order: seq<Where>, k: Key)
    requires k in s.entries && k in t.entries
  {
    && t.entries[k].callbacks == s.entries[k].callbacks
    && if Waits(s, k) && k.where in order then t.entries[k].requestId >= s.nextId
       else t.entries[k].requestId == s.entries[k].requestId
  }

  ghost predicate AllVisited(s: State, t: State, order: seq<Where>) {
    && t.entries.Keys == s.entries.Keys && 0 < s.nextId <= t.nextId
    && forall k :: k in s.entries ==> Visited(s, t, order, k)
  }

  /** Entries of one table that waited together have fared alike. */
  ghost predicate Together(s: State, t: State) {
    && t.entries.Keys == s.entries.Keys
    && forall k, j :: Waits(s, k) && Waits(s, j) && k.where == j.where ==> Alike(t, k, j)
  }

  predicate Alike(t: State, k: Key, j: Key) {
    && k in t.entries && j in t.entries
    && (t.entries[k].requestId == t.entries[j].requestId || (Waits(t, k) && Waits(t, j)))
  }

  /** A request sent on the way asks for exactly what its table had not asked for. */
  ghost predicate Batched(s: State, t: State) {
    && s.nextId <= t.nextId
    && (forall id :: id in s.inflight ==> id in t.inflight && t.inflight[id] == s.inflight[id])
    && (forall id :: id in t.inflight && id !in s.inflight ==> IsWholeBatch(s, t, id))
  }

  predicate IsWholeBatch(s: State, t: State, id: int)
    requires id in t.inflight
  {
    id >= s.nextId && t.inflight[id].ids == Unasked(s.entries, t.inflight[id].where)
  }

  lemma VisitOne(t: State, w: Where)
    requires Structure(t)
    ensures var u := AskTable(t, w);
      && u.entries.Keys == t.entries.Keys && t.nextId <= u.nextId
      && (forall k :: k in t.entries ==> u.entries[k].callbacks == t.entries[k].callbacks)
      && (forall k :: k in t.entries ==> u.entries[k].requestId == NewId(t, w, k))
      && u.inflight == if Unasked(t.entries, w) == {} then t.inflight
                       else t.inflight[t.nextId := Batch(w, Unasked(t.entries, w))]
  {
    UnaskedKeys(t.entries, w);
    AskedKeys(t.entries, w, t.nextId);
    hide Unasked;
  }

  lemma VisitedMore(s: State, t: State, order: seq<Where>, w: Where)
    requires Structure(t) && AllVisited(s, t, order)
    ensures AllVisited(s, AskTable(t, w), order + [w])
  {
    VisitOne(t, w);
    var u := AskTable(t, w);
    hide Structure, AskTable;
    forall k | k in s.entries ensures Visited(s, u, order + [w], k) {
      assert Visited(s, t, order, k);
      assert k.where in order + [w] <==> k.where in order || k.where == w;
    }
  }

  lemma TogetherMore(s: State, t: State, w: Where)
    requires Structure(t) && Together(s, t)
    ensures Together(s, AskTable(t, w))
  {
    VisitOne(t, w);
    var u := AskTable(t, w);
    hide Structure, AskTable;
    forall k, j | Waits(s, k) && Waits(s, j) && k.where == j.where ensures Alike(u, k, j) {
      assert Alike(t, k, j);
    }
  }

  /** What a table has left to ask for is all it had, until it is visited. */
  lemma UnaskedLeft(s: State, t: State, order: seq<Where>, w: Where)
    requires AllVisited(s, t, order)
    ensures Unasked(t.entries, w) == if w in order then {} else Unasked(s.entries, w)
  {
    UnaskedKeys(s.entries, w);
    UnaskedKeys(t.entries, w);
    hide Unasked;
    forall m | m in Unasked(t.entries, w) ensures w !in order && m in Unasked(s.entries, w) {
      assert Visited(s, t, order, Key(w, m));
    }
    if w !in order {
      forall m | m in Unasked(s.entries, w) ensures m in Unasked(t.entries, w) {
        assert Visited(s, t, order, Key(w, m));
      }
    }
  }

  lemma BatchedMore(s: State, t: State, order: seq<Where>, w: Where)
    requires AllVisited(s, t, order) && Batched(s, t)
    requires forall id :: id in t.inflight ==> id < t.nextId
    ensures Batched(s, AskTable(t, w))
  {
    UnaskedLeft(s, t, order, w);
    hide AllVisited, Unasked, Asked;
    if Unasked(t.entries, w) != {} {
      OneMoreBatch(s, t, AskTable(t, w), Batch(w, Unasked(s.entries, w)));
    }
  }

  lemma OneMoreBatch(s: State, t: State, u: State, b: Batch)
    requires Batched(s, t) && (forall id :: id in t.inflight ==> id < t.nextId)
    requires b.ids == Unasked(s.entries, b.where)
    requires u.inflight == t.inflight[t.nextId := b] && u.nextId == t.nextId + 1
    ensures Batched(s, u)
  {
    hide Unasked;
    forall id | id in u.inflight && id !in s.inflight ensures IsWholeBatch(s, u, id) {
      assert id in t.inflight ==> IsWholeBatch(s, t, id);
    }
  }

  lemma IdsBelow(t: State)
    requires Structure(t)
    ensures forall id :: id in t.inflight ==> id < t.nextId
  {
  }

  lemma {:induction false} TablesVisited(s: State, order: seq<Where>)
    requires Structure(s)
    ensures var t := AskTables(s, order);
      Structure(t) && Together(s, t) && Batched(s, t) && AllVisited(s, t, order)
    decreases |order|
  {
    if order != [] {
      var front, w := order[..|order| - 1], order[|order| - 1];
      assert front + [w] == order;
      hide Structure, Visited, AllVisited, Together, Batched, AskTable;
      TablesVisited(s, front);
      var t := AskTables(s, front);
      IdsBelow(t);
      VisitedMore(s, t, front, w);
      TogetherMore(s, t, w);
      BatchedMore(s, t, front, w);
      AskTableStructure(t, w);
    }
  }

  /** A resolve has asked for every entry that waited: entries of one table in one request, others in others. */
  ghost predicate AsksOncePerTable(s: State, t: State) {
    && (forall k :: Waits(s, k) ==>
          k in t.entries && t.entries[k].requestId >= s.nextId && t.entries[k].requestId in t.inflight)
    && (forall k, j :: Waits(s, k) && Waits(s, j) ==>
          (t.entries[k].requestId == t.entries[j].requestId <==> k.where == j.where))
  }

  /**
   * A resolve sends one request for each table that has anything to ask for: it asks for all the table has and for
   * nothing else, and no callback and no other entry is touched.
   */
  lemma ResolveAsksOncePerTable(s: State, order: seq<Where>)
    requires Structure(s) && Enabled(s, Resolve(order))
    ensures var t := Step(s, Resolve(order));
      && !t.queued && t.entries.Keys == s.entries.Keys && t.fired == s.fired
      && (forall k :: k in s.entries ==> t.entries[k].callbacks == s.entries[k].callbacks)
      && (forall k :: k in s.entries && !Waits(s, k) ==> t.entries[k] == s.entries[k])
      && AsksOncePerTable(s, t) && Batched(s, t)
  {
    hide Structure, AsksOncePerTable, Batched, AllVisited, Together, Enabled;
    TablesVisited(s, order);
    FiredKept(s, order);
    var t := AskTables(s, order);
    WaitersVisited(s, t, order);
    OthersKept(s, t, order);
    NotQueued(s, t);
  }

  lemma OthersKept(s: State, t: State, order: seq<Where>)
    requires AllVisited(s, t, order)
    ensures t.entries.Keys == s.entries.Keys
    ensures forall k :: k in s.entries ==> t.entries[k].callbacks == s.entries[k].callbacks
    ensures forall k :: k in s.entries && !Waits(s, k) ==> t.entries[k] == s.entries[k]
  {
    forall k | k in s.entries ensures t.entries[k].callbacks == s.entries[k].callbacks
      ensures !Waits(s, k) ==> t.entries[k] == s.entries[k]
    {
      assert Visited(s, t, order, k);
    }
  }

  lemma NotQueued(s: State, t: State)
    requires AsksOncePerTable(s, t) && Batched(s, t)
    ensures AsksOncePerTable(s, t.(queued := false)) && Batched(s, t.(queued := false))
  {
    hide Unasked, Waits;
    var u := t.(queued := false);
    forall id | id in u.inflight && id !in s.inflight ensures IsWholeBatch(s, u, id) {
      assert IsWholeBatch(s, t, id);
    }
  }

  lemma WaitersVisited(s: State, t: State, order: seq<Where>)
    requires Enabled(s, Resolve(order)) && Structure(t) && Together(s, t) && AllVisited(s, t, order)
    ensures AsksOncePerTable(s, t)
  {
    forall k | Waits(s, k) ensures k in t.entries && t.entries[k].requestId >= s.nextId {
      assert k.where in Tables(s.entries);
      assert Visited(s, t, order, k);
    }
    forall k, j | Waits(s, k) && Waits(s, j)
      ensures t.entries[k].requestId == t.entries[j].requestId <==> k.where == j.where
    {
      assert k.where == j.where ==> Alike(t, k, j);
    }
  }

  lemma {:induction false} FiredKept(s: State, order: seq<Where>)
    ensures AskTables(s, order).fired == s.fired
    decreases |order|
  {
    if order != [] {
      FiredKept(s, order[..|order| - 1]);
    }
    hide Unasked, Asked;
  }
}
