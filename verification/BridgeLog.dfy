/** The session database as the bridge reads it: one append-only table of messages. */
module BridgeLog {

  type Peer = int

  /** A message row. `chat`: its role is user or assistant. `text`: its content is not empty. */
  datatype Row = Row(id: int, peer: Peer, chat: bool, text: bool)

  /** Row ids grow with every append. */
  ghost predicate IsLog(log: seq<Row>) {
    && (forall i :: 0 <= i < |log| ==> log[i].id > 0)
    && (forall i, j :: 0 <= i < j < |log| ==> log[i].id < log[j].id)
  }

  predicate IsPushable(r: Row, p: Peer) { r.peer == p && r.chat && r.text }

  /** The rows of a peer that a client should see with `lo < id <= hi`, oldest first. */
  function Between(log: seq<Row>, p: Peer, lo: int, hi: int): seq<Row> {
    if log == [] then []
    else
      var last := log[|log| - 1];
      Between(log[..|log| - 1], p, lo, hi) + (if IsPushable(last, p) && lo < last.id <= hi then [last] else [])
  }

  /** All of them above `after`. */
  function Fresh(log: seq<Row>, p: Peer, after: int): seq<Row> {
    if log == [] then []
    else
      var last := log[|log| - 1];
      Fresh(log[..|log| - 1], p, after) + (if IsPushable(last, p) && after < last.id then [last] else [])
  }

  /** `MAX(id)` over the user and assistant rows of a peer, 0 when there is none. */
  function Top(log: seq<Row>, p: Peer): int {
    if log == [] then 0
    else
      var last := log[|log| - 1];
      if last.peer == p && last.chat then last.id else Top(log[..|log| - 1], p)
  }

  /** `max(m["id"] for m in rows)`. */
  function MaxId(rows: seq<Row>): int
    requires rows != []
  {
    var last := rows[|rows| - 1].id;
    if |rows| == 1 then last
    else
      var x := MaxId(rows[..|rows| - 1]);
      if x < last then last else x
  }

  lemma {:induction false} MaxIdIsMaximum(rows: seq<Row>)
    requires rows != []
    ensures exists r :: r in rows && r.id == MaxId(rows)
    ensures forall r :: r in rows ==> r.id <= MaxId(rows)
  {
    var front, last := rows[..|rows| - 1], rows[|rows| - 1];
    assert forall r :: r in rows <==> r in front || r == last;
    if |rows| > 1 {
      MaxIdIsMaximum(front);
    }
  }

  ghost predicate Ascending(rows: seq<Row>) {
    forall i, j :: 0 <= i < j < |rows| ==> rows[i].id < rows[j].id
  }

  /** The rows come out in id order, so the sort that ends `messages_after` changes nothing; and
      they are exactly the visible rows above the mark. */
  lemma {:induction false} FreshRows(log: seq<Row>, p: Peer, after: int)
    requires IsLog(log)
    ensures Ascending(Fresh(log, p, after))
    ensures forall r :: r in Fresh(log, p, after) <==> r in log && IsPushable(r, p) && after < r.id
    ensures forall r :: r in Fresh(log, p, after) <==> r in log && r.peer == p && r.chat && r.text && after < r.id
  {
    if log != [] {
      var front, last := log[..|log| - 1], log[|log| - 1];
      FreshRows(front, p, after);
      assert forall r :: r in log <==> r in front || r == last;
      assert forall r :: r in front ==> r.id < last.id;
    }
  }

  lemma {:induction false} TopBounds(log: seq<Row>, p: Peer)
    requires IsLog(log)
    ensures forall r :: r in log && r.peer == p && r.chat ==> r.id <= Top(log, p)
    ensures Top(log, p) == 0 || exists r :: r in log && r.peer == p && r.chat && r.id == Top(log, p)
  {
    if log != [] {
      var front, last := log[..|log| - 1], log[|log| - 1];
      TopBounds(front, p);
      assert forall r :: r in log <==> r in front || r == last;
      assert forall r :: r in front ==> r.id < last.id;
    }
  }

  lemma AppendKeepsLog(log: seq<Row>, r: Row)
    requires IsLog(log) && r.id > 0 && (log == [] || log[|log| - 1].id < r.id)
    ensures IsLog(log + [r])
    ensures forall x :: x in log ==> x.id < r.id
  {
  }

  /** The loop of `messages_after` over the rows of the session of a mapped peer. */
  method MessagesAfter(rows: seq<Row>, mapped: set<Peer>, p: Peer, after: int) returns (out: seq<Row>)
    ensures out == if p in mapped then Fresh(rows, p, after) else []
  {
    out := [];
    if p !in mapped {
      return;
    }
    for i := 0 to |rows|
      invariant out == Fresh(rows[..i], p, after)
    {
      assert rows[..i + 1][..i] == rows[..i];
      var row := rows[i];
      if row.peer != p || row.id <= after || !row.chat || !row.text {
        continue;
      }
      out := out + [row];
    }
    assert rows[..|rows|] == rows;
  }
}
