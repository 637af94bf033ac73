/** The client's own code for blocking and unblocking, against the state machine of `BlockedPeers`. */
module BlockedPeersApi {
  import opened Basics
  import opened BlockedPeers

  class Api {
    var blockRequests: Entries
    var inflight: map<int, Request>
    var nextId: int
    var blocked: set<Peer>
    var slice: Option<Slice>
    var changes: seq<Slice>
    ghost var accepted: multiset<Callback>
    var fired: seq<Fired>

    ghost function View(): State
      reads this
    {
      State(blockRequests, inflight, nextId, blocked, slice, changes, accepted, fired)
    }

    constructor ()
      ensures View() == START
    {
      blockRequests, inflight, nextId, blocked, slice, changes := map[], map[], 1, {}, None, [];
      accepted, fired := multiset{}, [];
    }

    /** Calls each callback in turn. */
    method CallAll(callbacks: seq<Callback>, success: bool)
      modifies this`fired
      ensures fired == old(fired) + Answer(callbacks, success)
    {
      for i := 0 to |callbacks|
        invariant fired + Answer(callbacks[i..], success) == old(fired) + Answer(callbacks, success)
      {
        assert callbacks[i..][1..] == callbacks[i + 1..] && callbacks[i..][0] == callbacks[i];
        fired := fired + [Fired(callbacks[i], success)];
      }
    }

    method TakeAndCall(peer: Peer, success: bool)
      modifies this`blockRequests, this`fired
      ensures View() == Take(old(View()), peer, success)
    {
      if peer in blockRequests {
        var data := blockRequests[peer];
        blockRequests := blockRequests - {peer};
        CallAll(data.callbacks, success);
      }
    }

    /** Whether the wanted request is already sent; one of the other kind is given up, its callbacks answered. */
    method BlockAlreadySent(peer: Peer, blocking: bool, done: seq<Callback>) returns (sent: bool)
      modifies this`blockRequests, this`fired, this`accepted
      ensures sent == AlreadySent(old(View()), peer, blocking)
      ensures View() == if sent then Send(old(View()), peer, blocking, done) else Take(old(View()), peer, false)
    {
      if peer !in blockRequests {
        return false;
      } else if blockRequests[peer].blocking == blocking {
        var e := blockRequests[peer];
        blockRequests := blockRequests[peer := e.(callbacks := e.callbacks + done)];
        accepted := accepted + multiset(done);
        return true;
      }
      var callbacks := blockRequests[peer].callbacks;
      blockRequests := blockRequests - {peer};
      CallAll(callbacks, false);
      return false;
    }

    /** The new request is sent and stored. */
    method SendAndStore(peer: Peer, blocking: bool, done: seq<Callback>)
      requires peer !in blockRequests
      modifies this`blockRequests, this`inflight, this`nextId, this`accepted
      ensures blockRequests == old(blockRequests)[peer := Entry(old(nextId), blocking, done)]
      ensures inflight == old(inflight)[old(nextId) := BlockedPeers.Request(peer, blocking)]
      ensures nextId == old(nextId) + 1 && accepted == old(accepted) + multiset(done)
    {
      var requestId := nextId;
      inflight := inflight[requestId := BlockedPeers.Request(peer, blocking)];
      nextId := nextId + 1;
      blockRequests := blockRequests[peer := Entry(requestId, blocking, done)];
      accepted := accepted + multiset(done);
    }

    method Block(peer: Peer)
      modifies this
      ensures View() == Step(old(View()), BlockedPeers.Block(peer))
    {
      if peer in blocked {
        return;
      }
      var sent := BlockAlreadySent(peer, true, []);
      if sent {
        return;
      }
      SendAndStore(peer, true, []);
    }

    /** `done` has one callback or none. */
    method Unblock(peer: Peer, done: seq<Callback>, force: bool)
      requires |done| <= 1
      modifies this
      ensures View() == Step(old(View()), BlockedPeers.Unblock(peer, done, force))
    {
      if !force && peer !in blocked {
        return;
      }
      var sent := BlockAlreadySent(peer, false, done);
      if sent {
        return;
      }
      SendAndStore(peer, false, done);
    }

    method BlockDone(requestId: int, now: int)
      requires requestId in inflight && inflight[requestId].blocking
      modifies this
      ensures View() == Step(old(View()), Complete(requestId, true, now))
    {
      var peer := inflight[requestId].peer;
      inflight := inflight - {requestId};
      blocked := blocked + {peer};
      if slice.Some? {
        slice := Some(Slice([Item(peer, now)] + slice.value.list, slice.value.total + 1));
        changes := changes + [slice.value];
      }
      TakeAndCall(peer, false);
    }

    method UnblockDone(requestId: int, now: int)
      requires requestId in inflight && !inflight[requestId].blocking
      modifies this
      ensures View() == Step(old(View()), Complete(requestId, true, now))
    {
      var peer := inflight[requestId].peer;
      inflight := inflight - {requestId};
      blocked := blocked - {peer};
      if slice.Some? {
        var list := ErasePeer(slice.value.list, peer);
        var total := slice.value.total;
        if total > |list| {
          total := total - 1;
        }
        slice := Some(Slice(list, total));
        changes := changes + [slice.value];
      }
      TakeAndCall(peer, true);
    }

    method RequestFailed(requestId: int, now: int)
      requires requestId in inflight
      modifies this
      ensures View() == Step(old(View()), Complete(requestId, false, now))
    {
      var peer := inflight[requestId].peer;
      inflight := inflight - {requestId};
      TakeAndCall(peer, false);
    }

    /** The reply to `reload`: announced only when it differs from what is known. */
    method GotSlice(count: int, list: seq<Item>)
      modifies this`slice, this`changes
      ensures View() == Step(old(View()), Loaded(count, list))
    {
      var loaded := ToSlice(count, list);
      if slice.None? || slice.value != loaded {
        slice := Some(loaded);
        changes := changes + [loaded];
      }
    }
  }

  lemma {:induction false} EraseAt(list: seq<Item>, peer: Peer, i: nat)
    requires i <= |list| && forall j :: 0 <= j < i ==> list[j].id != peer
    requires i < |list| ==> list[i].id == peer
    ensures EraseFirst(list, peer) == if i < |list| then list[..i] + list[i + 1..] else list
  {
    if i > 0 {
      var rest := list[1..];
      assert forall j :: 0 <= j < i - 1 ==> rest[j] == list[j + 1];
      EraseAt(rest, peer, i - 1);
      if i < |list| {
        assert rest[..i - 1] == list[1..i] && rest[i..] == list[i + 1..];
        assert list[..i] == [list[0]] + list[1..i];
      } else {
        assert list == [list[0]] + rest;
      }
    }
  }

  /** Only the first item of the peer goes. */
  method ErasePeer(list: seq<Item>, peer: Peer) returns (less: seq<Item>)
    ensures less == EraseFirst(list, peer)
  {
    for i := 0 to |list|
      invariant forall j :: 0 <= j < i ==> list[j].id != peer
    {
      if list[i].id == peer {
        EraseAt(list, peer, i);
        return list[..i] + list[i + 1..];
      }
    }
    EraseAt(list, peer, |list|);
    return list;
  }
}
