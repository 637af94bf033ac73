/** What each kind of completion does to the peer and to the list shown, and what each call sends. */
module BlockedList {
  import opened Basics
  import opened BlockedPeers
  import opened BlockedPeersApi

  /** The place of the peer's first item, or the end of the list. */
  ghost predicate IsFirst(list: seq<Item>, peer: Peer, i: nat) {
    && i <= |list| && (i < |list| ==> list[i].id == peer)
    && forall j :: 0 <= j < i ==> list[j].id != peer
  }

  /** The list without the first item of the peer, if it has one; everything else in place. */
  ghost predicate LosesFirst(list: seq<Item>, less: seq<Item>, peer: Peer) {
    exists i: nat :: IsFirst(list, peer, i) && less == if i < |list| then list[..i] + list[i + 1..] else list
  }

  lemma EraseLosesFirst(list: seq<Item>, peer: Peer)
    ensures LosesFirst(list, EraseFirst(list, peer), peer)
  {
    var i := 0;
    while i < |list| && list[i].id != peer
      invariant i <= |list| && forall j :: 0 <= j < i ==> list[j].id != peer
    {
      i := i + 1;
    }
    EraseAt(list, peer, i);
    assert IsFirst(list, peer, i);
  }

  /**
   * A done block puts the peer at the front of the list, blocked at that time, and counts it; a done unblock takes
   * the peer's first item out and counts it off, as far as there is one to count off; a failure changes neither.
   */
  lemma CompletionChangesList(s: State, e: Event)
    requires e.Complete? && Enabled(s, e)
    ensures var r, t := s.inflight[e.requestId], Step(s, e);
      && t.blocked == (if !e.ok then s.blocked else if r.blocking then s.blocked + {r.peer} else s.blocked - {r.peer})
      && (!e.ok || s.slice.None? ==> t.slice == s.slice && t.changes == s.changes)
      && (e.ok && s.slice.Some? ==>
        && t.slice.Some? && t.changes == s.changes + [t.slice.value]
        && var before, after := s.slice.value, t.slice.value;
        if r.blocking then
          && |after.list| == |before.list| + 1 && after.list[0] == Item(r.peer, e.now) && after.list[1..] == before.list
          && after.total == before.total + 1
        else
          && LosesFirst(before.list, after.list, r.peer)
          && after.total == if before.total > |after.list| then before.total - 1 else before.total)
  {
    hide Answer, LosesFirst, EraseFirst;
    if s.slice.Some? {
      EraseLosesFirst(s.slice.value.list, s.inflight[e.requestId].peer);
      assert ([Item(s.inflight[e.requestId].peer, e.now)] + s.slice.value.list)[1..] == s.slice.value.list;
    }
  }

  /** The call goes through: the peer is not blocked yet, or is, or is unblocked by force. */
  predicate GoesThrough(s: State, e: Event) {
    match e
    case Block(peer) => peer !in s.blocked
    case Unblock(peer, _, force) => force || peer in s.blocked
    case _ => false
  }

  /**
   * A call sends at most one request, of its own kind and for its own peer, exactly when it goes through and none of
   * its kind is stored for the peer; no call changes the list or who is blocked.
   */
  lemma CallSendsItsKind(s: State, e: Event)
    requires (e.Block? || e.Unblock?) && Enabled(s, e)
    ensures var t, sends := Step(s, e), GoesThrough(s, e)
        && !(e.peer in s.entries && s.entries[e.peer].blocking == e.Block?);
      && t.inflight == (if sends then s.inflight[s.nextId := Request(e.peer, e.Block?)] else s.inflight)
      && t.nextId == (if sends then s.nextId + 1 else s.nextId)
      && t.blocked == s.blocked && t.slice == s.slice && t.changes == s.changes
      && (GoesThrough(s, e) ==> e.peer in t.entries && t.entries[e.peer].blocking == e.Block?)
      && (sends ==> t.entries[e.peer].requestId == s.nextId)
      && (forall p :: p != e.peer || !GoesThrough(s, e) ==>
        (p in t.entries <==> p in s.entries) && (p in s.entries ==> t.entries[p] == s.entries[p]))
  {
    hide Answer;
  }

  /** A reply to loading the list replaces it, and is announced exactly when it differs. */
  lemma LoadingReplacesList(s: State, count: int, list: seq<Item>)
    ensures var t := Step(s, Loaded(count, list));
      && t.slice == Some(Slice(list, if count < |list| then |list| else count))
      && t.changes == if t.slice == s.slice then s.changes else s.changes + [t.slice.value]
  {
  }

  /** An update from elsewhere says who is blocked, and does nothing else. */
  lemma UpdatesSetBlocked(s: State, peer: Peer, isBlocked: bool)
    ensures var t := Step(s, SetBlocked(peer, isBlocked));
      && t == s.(blocked := t.blocked)
      && (peer in t.blocked <==> isBlocked)
      && forall p :: p != peer ==> (p in t.blocked <==> p in s.blocked)
  {
  }
}
