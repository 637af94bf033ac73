/** The connection as the bridge holds it: shared dictionaries that both tasks write. Each method is
    the code between two awaits; what it does to the whole state is a transition of `BridgePush`. */
module BridgeConnection {
  import opened BridgeLog
  import opened BridgePush

  const BASE := 1_000_000_000
  const INT32_MAX := 0x7fff_ffff
  const PERIOD := INT32_MAX - 1 - BASE

  /** The allocator of ids for the live path. */
  class SynthIds {
    var counter: int

    ghost predicate Valid()
      reads this
    {
      BASE <= counter < INT32_MAX
    }

    constructor ()
      ensures Valid() && counter == BASE
    {
      counter := BASE;
    }

    method NextSynthId() returns (id: int)
      requires Valid()
      modifies this
      ensures Valid() && id == counter == Successor(old(counter))
    {
      counter := counter + 1;
      if counter >= INT32_MAX {
        counter := BASE + 1;
      }
      id := counter;
    }
  }

  function Successor(counter: int): int {
    if counter + 1 >= INT32_MAX then BASE + 1 else counter + 1
  }

  /** The id that the k-th call returns, counting from one; the counter's start before any. */
  function Allocated(k: nat): int {
    if k == 0 then BASE else Successor(Allocated(k - 1))
  }

  /** In closed form, inside the band below the 32-bit limit. */
  lemma {:induction false} AllocatedClosedForm(k: nat)
    requires k > 0
    ensures Allocated(k) == BASE + 1 + (k - 1) % PERIOD
    ensures BASE < Allocated(k) < INT32_MAX
  {
    if k > 1 {
      AllocatedClosedForm(k - 1);
      NextRemainder(k - 2);
    }
  }

  lemma NextRemainder(n: nat)
    ensures (n + 1) % PERIOD == if n % PERIOD == PERIOD - 1 then 0 else n % PERIOD + 1
  {
    var q, r := n / PERIOD, n % PERIOD;
    assert n == PERIOD * q + r;
    if r == PERIOD - 1 {
      assert n + 1 == PERIOD * (q + 1);
    }
  }

  /** Two calls return the same id exactly when they are a multiple of the period apart. */
  lemma AllocatedDistinct(j: nat, k: nat)
    requires 0 < j < k
    ensures Allocated(j) == Allocated(k) <==> (k - j) % PERIOD == 0
    ensures k - j < PERIOD ==> Allocated(j) != Allocated(k)
  {
    AllocatedClosedForm(j);
    AllocatedClosedForm(k);
    var a, b := (j - 1) / PERIOD, (k - 1) / PERIOD;
    assert k - j == PERIOD * (b - a) + ((k - 1) % PERIOD - (j - 1) % PERIOD);
  }

  class Connection {
    var log: seq<Row>
    var mapped: set<Peer>
    var watermarks: map<Peer, int>
    var poller: Poller
    var handler: Handler
    var ticks: nat
    ghost var sent: seq<Frame>

    ghost function View(): State
      reads this
    {
      State(log, mapped, watermarks, poller, handler, ticks, sent)
    }

    constructor ()
      ensures View() == START
    {
      log, mapped, watermarks, poller, handler, ticks, sent := [], {}, map[], Absent, Ready, 0, [];
    }

    /** The `sessions.list` branch: rebuild the map, give every listed peer its mark, start the poller. */
    method ListSessions(dialogs: seq<Dialog>)
      requires Enabled(View(), SessionsList(dialogs))
      modifies this
      ensures View() == Step(old(View()), SessionsList(dialogs))
    {
      mapped := {};
      var i := 0;
      while i < |dialogs|
        invariant 0 <= i <= |dialogs|
        invariant mapped == Peers(dialogs[..i])
        invariant watermarks == Reseeded(old(watermarks), dialogs[..i])
        invariant log == old(log) && poller == old(poller) && handler == old(handler)
        invariant ticks == old(ticks) && sent == old(sent)
      {
        assert dialogs[..i + 1][..i] == dialogs[..i];
        assert Peers(dialogs[..i + 1]) == Peers(dialogs[..i]) + {dialogs[i].peer} by {
          PeersGrow(dialogs, i);
        }
        mapped := mapped + {dialogs[i].peer};
        watermarks := watermarks[dialogs[i].peer := dialogs[i].top];
        i := i + 1;
      }
      assert dialogs[..i] == dialogs;
      if poller.Absent? {
        poller := Idle;
      }
    }

    /** The executor's read for the peer being scanned. */
    method Read(found: bool)
      requires Enabled(View(), ReadDone(found))
      modifies this
      ensures View() == Step(old(View()), ReadDone(found))
    {
      var snap, todo := poller.snap, poller.todo;
      var rows := MessagesAfter(log, if found then mapped else {}, snap.peer, snap.mark);
      poller := Pushing(snap.peer, rows, todo);
    }

    method PushNext() returns (frame: Frame)
      requires Enabled(View(), Push)
      modifies this
      ensures View() == Step(old(View()), Push) && sent == old(sent) + [frame]
    {
      frame := MessageNew(poller.peer, poller.rows[0]);
      sent := sent + [frame];
      poller := Bumping(poller.peer, poller.rows[0], poller.rows[1..], poller.todo);
    }

    /** `if m["id"] > watermarks.get(peer_id, 0)`. */
    method RaiseMark()
      requires Enabled(View(), Bump)
      modifies this
      ensures View() == Step(old(View()), Bump)
    {
      var oldMark := if poller.peer in watermarks then watermarks[poller.peer] else 0;
      if poller.row.id > oldMark {
        watermarks := watermarks[poller.peer := poller.row.id];
      }
      poller := Pushing(poller.peer, poller.rows, poller.todo);
    }

    /** One round of the rescan loop, up to its await: a listed peer that has a mark is passed over,
        one without is announced. */
    method RescanRound()
      requires poller.Announcing? && poller.dialogs != []
      modifies this
      ensures View() == Step(old(View()), if old(poller.dialogs[0].peer in watermarks) then Skip else Announce)
    {
      var d, rest := poller.dialogs[0], poller.dialogs[1..];
      if d.peer in watermarks {
        poller := Announcing(rest);
        return;
      }
      sent := sent + [DialogNew(d.peer)];
      poller := Announced(d, rest);
    }

    method SeedMark()
      requires Enabled(View(), Seed)
      modifies this
      ensures View() == Step(old(View()), Seed)
    {
      watermarks := watermarks[poller.dialog.peer := poller.dialog.top];
      poller := Announcing(poller.dialogs);
    }

    /** The end of `_handle_send`: the mark becomes the newest id read back, whatever it is now. */
    method JumpMark()
      requires Enabled(View(), WriteBack)
      modifies this
      ensures View() == Step(old(View()), WriteBack)
    {
      if handler.persisted != [] {
        var best := NewestId(handler.persisted);
        watermarks := watermarks[handler.peer := best];
      }
      handler := Ready;
    }
  }

  method NewestId(rows: seq<Row>) returns (best: int)
    requires rows != []
    ensures best == MaxId(rows)
  {
    best := rows[0].id;
    for i := 1 to |rows|
      invariant best == MaxId(rows[..i])
    {
      assert rows[..i + 1][..i] == rows[..i];
      best := if best < rows[i].id then rows[i].id else best;
    }
    assert rows[..|rows|] == rows;
  }

  lemma PeersGrow(dialogs: seq<Dialog>, i: nat)
    requires i < |dialogs|
    ensures Peers(dialogs[..i + 1]) == Peers(dialogs[..i]) + {dialogs[i].peer}
  {
    var x, y := dialogs[..i + 1], dialogs[..i];
    forall p | p in Peers(x) ensures p in Peers(y) + {dialogs[i].peer} {
      var j :| 0 <= j < |x| && x[j].peer == p;
      assert j < i ==> y[j].peer == p;
    }
    forall p | p in Peers(y) + {dialogs[i].peer} ensures p in Peers(x) {
      if p == dialogs[i].peer {
        assert x[i].peer == p;
      } else {
        var j :| 0 <= j < |y| && y[j].peer == p;
        assert x[j].peer == p;
      }
    }
  }
}
