/** The hash of a sticker set order: which sets it sees, and which it cannot see. */
module ApiHashOrders {
  import opened ApiHash

  /** A 64-bit id; only compared here. */
  type SetId = nat

  datatype StickersSet = StickersSet(id: SetId, hash: U64, special: bool, archived: bool)

  const DEFAULT_SET_ID: SetId := 0

  predicate IsOutdated(id: SetId, sets: map<SetId, StickersSet>) {
    id in sets && sets[id].id == DEFAULT_SET_ID
  }

  /** The sets whose hash is mixed in. */
  predicate IsLive(id: SetId, sets: map<SetId, StickersSet>) {
    id in sets && sets[id].id != DEFAULT_SET_ID && !sets[id].special && !sets[id].archived
  }

  /** The hashes of an order's live sets, in order. */
  function LiveHashes(order: seq<SetId>, sets: map<SetId, StickersSet>): seq<U64> {
    if order == [] then []
    else (if IsLive(order[0], sets) then [sets[order[0]].hash] else []) + LiveHashes(order[1..], sets)
  }

  ghost predicate FoundOutdated(order: seq<SetId>, sets: map<SetId, StickersSet>) {
    exists i :: 0 <= i < |order| && IsOutdated(order[i], sets)
  }

  /** What the hash of an order is meant to be. */
  ghost function OrderHash(order: seq<SetId>, sets: map<SetId, StickersSet>, checkOutdatedInfo: bool): U64 {
    if checkOutdatedInfo && FoundOutdated(order, sets) then 0 else Count(LiveHashes(order, sets))
  }

  lemma {:induction false} LiveHashesAppend(p: seq<SetId>, s: seq<SetId>, sets: map<SetId, StickersSet>)
    ensures LiveHashes(p + s, sets) == LiveHashes(p, sets) + LiveHashes(s, sets)
  {
    if p == [] {
      assert p + s == s;
    } else {
      assert (p + s)[1..] == p[1..] + s;
      LiveHashesAppend(p[1..], s, sets);
    }
  }

  lemma FoundSplits(p: seq<SetId>, s: seq<SetId>, sets: map<SetId, StickersSet>)
    ensures FoundOutdated(p + s, sets) <==> FoundOutdated(p, sets) || FoundOutdated(s, sets)
  {
    if i :| 0 <= i < |p| && IsOutdated(p[i], sets) {
      assert (p + s)[i] == p[i];
    }
    if i :| 0 <= i < |s| && IsOutdated(s[i], sets) {
      assert (p + s)[|p| + i] == s[i];
    }
  }

  lemma FoundOne(id: SetId, sets: map<SetId, StickersSet>)
    ensures FoundOutdated([id], sets) <==> IsOutdated(id, sets)
  {
    if IsOutdated(id, sets) {
      assert [id][0] == id;
    }
  }

  /** One more id adds at most its own hash. */
  lemma OneMoreId(p: seq<SetId>, id: SetId, sets: map<SetId, StickersSet>)
    ensures FoundOutdated(p + [id], sets) <==> FoundOutdated(p, sets) || IsOutdated(id, sets)
    ensures IsLive(id, sets) ==> LiveHashes(p + [id], sets) == LiveHashes(p, sets) + [sets[id].hash]
    ensures !IsLive(id, sets) ==> LiveHashes(p + [id], sets) == LiveHashes(p, sets)
  {
    LiveHashesAppend(p, [id], sets);
    assert LiveHashes([id], sets) == if IsLive(id, sets) then [sets[id].hash] else [] by {
      assert [id][1..] == [];
    }
    FoundSplits(p, [id], sets);
    FoundOne(id, sets);
    hide FoundOutdated;
  }

  lemma OneMoreHash(p: seq<U64>, h: U64)
    ensures Count(p + [h]) == Update(Count(p), h)
  {
    hide Update;
    UpdateAllSplits(0, p, [h]);
    LastUpdate(Count(p), h);
  }

  method CountStickersOrderHash(sets: map<SetId, StickersSet>, order: seq<SetId>, checkOutdatedInfo: bool)
    returns (hash: U64)
    ensures hash == OrderHash(order, sets, checkOutdatedInfo)
  {
    hide Update, Count, LiveHashes, FoundOutdated;
    var result: U64 := 0;
    var foundOutdated := false;
    NothingYet(sets);
    for i := 0 to |order|
      invariant foundOutdated == FoundOutdated(order[..i], sets)
      invariant result == Count(LiveHashes(order[..i], sets))
    {
      var id := order[i];
      assert order[..i + 1] == order[..i] + [id];
      OneMoreId(order[..i], id, sets);
      if id in sets {
        var found := sets[id];
        if found.id == DEFAULT_SET_ID {
          foundOutdated := true;
        } else if !found.special && !found.archived {
          OneMoreHash(LiveHashes(order[..i], sets), found.hash);
          result := HashUpdate(result, found.hash);
        }
      }
    }
    assert order[..|order|] == order;
    return if !checkOutdatedInfo || !foundOutdated then result else 0;
  }

  lemma NothingYet(sets: map<SetId, StickersSet>)
    ensures !FoundOutdated([], sets) && Count(LiveHashes([], sets)) == 0
  {
  }

  // ---------- what the hash depends on ----------

  /** An id the hash skips silently: unknown, special or archived, and not the default set. */
  predicate IsIgnored(id: SetId, sets: map<SetId, StickersSet>) {
    id !in sets || (sets[id].id != 0 && (sets[id].special || sets[id].archived))
  }

  /** What one id brings to the hash: its set's hash, if the set is known, not the default one, and in use. */
  lemma OneIdHash(id: SetId, sets: map<SetId, StickersSet>, check: bool)
    ensures OrderHash([id], sets, check)
      == if id in sets && sets[id].id != 0 && !sets[id].special && !sets[id].archived then sets[id].hash else 0
  {
    hide Count, Update;
    assert [id][1..] == [];
    assert LiveHashes([id], sets) == if IsLive(id, sets) then [sets[id].hash] else [];
    FoundOne(id, sets);
    if IsLive(id, sets) {
      CountOne(sets[id].hash);
    }
    NothingYet(sets);
  }

  lemma CountOne(h: U64)
    ensures Count([h]) == h
  {
    OneMoreHash([], h);
    assert [] + [h] == [h];
    assert Mix(0) == 0;
    hide Mix, UpdateAll;
  }

  /** The hash is 0 when the default set is found and asked about; when it is not asked about that has no effect. */
  lemma ForcedExactly(order: seq<SetId>, sets: map<SetId, StickersSet>)
    ensures (exists i :: 0 <= i < |order| && order[i] in sets && sets[order[i]].id == 0) ==>
      OrderHash(order, sets, true) == 0
    ensures (forall i :: 0 <= i < |order| && order[i] in sets ==> sets[order[i]].id != 0) ==>
      OrderHash(order, sets, true) == OrderHash(order, sets, false)
    ensures OrderHash(order, sets, false) == Count(LiveHashes(order, sets))
  {
    hide Count, LiveHashes;
    if i :| 0 <= i < |order| && order[i] in sets && sets[order[i]].id == 0 {
      assert IsOutdated(order[i], sets);
    }
  }

  /** Inserting an ignored id anywhere leaves the hash as it was. */
  lemma IgnoredIdInserted(p: seq<SetId>, id: SetId, s: seq<SetId>, sets: map<SetId, StickersSet>, check: bool)
    requires IsIgnored(id, sets)
    ensures OrderHash(p + [id] + s, sets, check) == OrderHash(p + s, sets, check)
  {
    LiveHashesAppend(p + [id], s, sets);
    LiveHashesAppend(p, s, sets);
    OneMoreId(p, id, sets);
    FoundSplits(p + [id], s, sets);
    FoundSplits(p, s, sets);
    hide Count, LiveHashes, FoundOutdated;
  }

  /** Moving an ignored id from one place to another does as little. */
  lemma IgnoredIdMoved(
    p: seq<SetId>, id: SetId, s: seq<SetId>, p': seq<SetId>, s': seq<SetId>, sets: map<SetId, StickersSet>, check: bool)
    requires IsIgnored(id, sets) && p + s == p' + s'
    ensures OrderHash(p + [id] + s, sets, check) == OrderHash(p' + [id] + s', sets, check)
  {
    IgnoredIdInserted(p, id, s, sets, check);
    IgnoredIdInserted(p', id, s', sets, check);
    hide OrderHash;
  }

  lemma {:induction false} OtherHashesStay(
    order: seq<SetId>, sets: map<SetId, StickersSet>, id: SetId, hash: U64)
    requires id in sets && id !in order
    ensures LiveHashes(order, sets[id := sets[id].(hash := hash)]) == LiveHashes(order, sets)
  {
    if order != [] {
      OtherHashesStay(order[1..], sets, id, hash);
    }
  }

  lemma SameOutdated(order: seq<SetId>, sets: map<SetId, StickersSet>, id: SetId, hash: U64)
    requires id in sets
    ensures FoundOutdated(order, sets[id := sets[id].(hash := hash)]) == FoundOutdated(order, sets)
  {
    var changed := sets[id := sets[id].(hash := hash)];
    assert forall i :: 0 <= i < |order| ==> IsOutdated(order[i], changed) == IsOutdated(order[i], sets);
  }

  /** A new hash for one live set shows in every order that holds the set once and is not forced to 0. */
  lemma ChangedLiveHashShows(
    p: seq<SetId>, id: SetId, s: seq<SetId>, sets: map<SetId, StickersSet>, hash: U64, check: bool)
    requires IsLive(id, sets) && id !in p && id !in s
    requires check ==> !FoundOutdated(p + [id] + s, sets)
    ensures
      var order, changed := p + [id] + s, sets[id := sets[id].(hash := hash)];
      OrderHash(order, changed, check) == OrderHash(order, sets, check) <==> hash == sets[id].hash
  {
    hide Count, Update, FoundOutdated, LiveHashes;
    var changed := sets[id := sets[id].(hash := hash)];
    var order := p + [id] + s;
    SameOutdated(order, sets, id, hash);
    OtherHashesStay(p, sets, id, hash);
    OtherHashesStay(s, sets, id, hash);
    LiveHashesAppend(p + [id], s, sets);
    LiveHashesAppend(p + [id], s, changed);
    OneMoreId(p, id, sets);
    OneMoreId(p, id, changed);
    OneChangeShows(LiveHashes(p, sets), sets[id].hash, hash, LiveHashes(s, sets));
  }
}
