/** One client connection: the poller task and the request handler, interleaved between awaits.
    A transition is the code between two awaits, or the database read an await waits for. */
module BridgePush {
  import opened BridgeLog

  /** An item of `list(watermarks.items())`, taken when a tick starts. */
  datatype Snap = Snap(peer: Peer, mark: int)

  datatype Dialog = Dialog(peer: Peer, top: int)

  datatype Poller =
    | Absent
    | Idle
    | Scanning(todo: seq<Snap>)
    | Reading(snap: Snap, todo: seq<Snap>)
    | Pushing(peer: Peer, rows: seq<Row>, todo: seq<Snap>)
    | Bumping(peer: Peer, row: Row, rows: seq<Row>, todo: seq<Snap>)  // row is sent, its mark not yet set
    | Listing
    | Announcing(dialogs: seq<Dialog>)
    | Announced(dialog: Dialog, dialogs: seq<Dialog>)  // dialog is sent, its mark not yet set

  datatype Handler =
    | Ready
    | Sending(peer: Peer)
    | Persisting(peer: Peer, after: int)
    | Writing(peer: Peer, persisted: seq<Row>)

  datatype Frame = MessageNew(peer: Peer, row: Row) | DialogNew(peer: Peer)

  datatype State = State(
    log: seq<Row>,
    mapped: set<Peer>,             // the peer map of the bridge, shared by all its connections
    watermarks: map<Peer, int>,
    poller: Poller,
    handler: Handler,
    ticks: nat,
    sent: seq<Frame>)

  const START := State([], {}, map[], Absent, Ready, 0, [])

  datatype Event =
    | Append(row: Row)
    | Remap(mapped: set<Peer>)  // another connection lists its sessions
    // the poller
    | TickStart(items: seq<Snap>)
    | Submit
    | ReadDone(found: bool)
    | Push
    | Bump
    | PeerDone
    | ScanDone
    | RescanRead(dialogs: seq<Dialog>)
    | Skip
    | Announce
    | Seed
    | RescanDone
    | TickFail
    // the handler
    | SessionsList(dialogs: seq<Dialog>)
    | SendStart(peer: Peer)
    | SendFail
    | SendDone
    | PersistRead(found: bool)
    | PersistFail
    | WriteBack

  function Mark(m: map<Peer, int>, p: Peer): int {
    if p in m then m[p] else 0
  }

  ghost predicate IsItems(items: seq<Snap>, m: map<Peer, int>) {
    && (forall i, j :: 0 <= i < j < |items| ==> items[i].peer != items[j].peer)
    && (forall i :: 0 <= i < |items| ==> items[i].peer in m && items[i].mark == m[items[i].peer])
    && (forall p :: p in m ==> exists i :: 0 <= i < |items| && items[i].peer == p)
  }

  ghost predicate IsListing(dialogs: seq<Dialog>, log: seq<Row>) {
    forall i :: 0 <= i < |dialogs| ==> dialogs[i].top == Top(log, dialogs[i].peer)
  }

  function Peers(dialogs: seq<Dialog>): set<Peer> {
    set i | 0 <= i < |dialogs| :: dialogs[i].peer
  }

  /** The loop of the `sessions.list` branch: every listed peer gets its top message id. */
  function Reseeded(m: map<Peer, int>, dialogs: seq<Dialog>): map<Peer, int> {
    if dialogs == [] then m
    else
      var d := dialogs[|dialogs| - 1];
      Reseeded(m, dialogs[..|dialogs| - 1])[d.peer := d.top]
  }

  const RESCAN_EVERY := 5

  ghost predicate Enabled(s: State, e: Event) {
    match e
    case Remap(_) => true
    case Append(row) => row.id > 0 && (s.log == [] || s.log[|s.log| - 1].id < row.id)
    case TickStart(items) => s.poller.Idle? && IsItems(items, s.watermarks)
    case Submit => s.poller.Scanning? && s.poller.todo != []
    case ReadDone(found) => s.poller.Reading? && (found ==> s.poller.snap.peer in s.mapped)
    case Push => s.poller.Pushing? && s.poller.rows != []
    case Bump => s.poller.Bumping?
    case PeerDone => s.poller.Pushing? && s.poller.rows == []
    case ScanDone => s.poller.Scanning? && s.poller.todo == []
    case RescanRead(dialogs) => s.poller.Listing? && IsListing(dialogs, s.log)
    case Skip => s.poller.Announcing? && s.poller.dialogs != [] && s.poller.dialogs[0].peer in s.watermarks
    case Announce => s.poller.Announcing? && s.poller.dialogs != [] && s.poller.dialogs[0].peer !in s.watermarks
    case Seed => s.poller.Announced?
    case RescanDone => s.poller.Announcing? && s.poller.dialogs == []
    case TickFail => s.poller.Reading? || s.poller.Listing?
    case SessionsList(dialogs) => s.handler.Ready? && IsListing(dialogs, s.log)
    case SendStart(peer) => s.handler.Ready? && peer in s.mapped
    case SendFail => s.handler.Sending?
    case SendDone => s.handler.Sending?
    case PersistRead(found) => s.handler.Persisting? && (found ==> s.handler.peer in s.mapped)
    case PersistFail => s.handler.Persisting?
    case WriteBack => s.handler.Writing?
  }

  ghost function Step(s: State, e: Event): State
    requires Enabled(s, e)
  {
    match e
    case Append(row) => s.(log := s.log + [row])
    case Remap(mapped) => s.(mapped := mapped)
    case TickStart(items) => s.(poller := Scanning(items))
    case Submit => s.(poller := Reading(s.poller.todo[0], s.poller.todo[1..]))
    case ReadDone(found) =>
      var snap := s.poller.snap;
      s.(poller := Pushing(snap.peer, if found then Fresh(s.log, snap.peer, snap.mark) else [], s.poller.todo))
    case Push =>
      var row := s.poller.rows[0];
      s.(sent := s.sent + [MessageNew(s.poller.peer, row)],
         poller := Bumping(s.poller.peer, row, s.poller.rows[1..], s.poller.todo))
    case Bump =>
      var (p, row) := (s.poller.peer, s.poller.row);
      s.(watermarks := if row.id > Mark(s.watermarks, p) then s.watermarks[p := row.id] else s.watermarks,
         poller := Pushing(p, s.poller.rows, s.poller.todo))
    case PeerDone => s.(poller := Scanning(s.poller.todo))
    case ScanDone =>
      s.(ticks := s.ticks + 1, poller := if (s.ticks + 1) % RESCAN_EVERY == 0 then Listing else Idle)
    case RescanRead(dialogs) => s.(mapped := Peers(dialogs), poller := Announcing(dialogs))
    case Skip => s.(poller := Announcing(s.poller.dialogs[1..]))
    case Announce =>
      var d := s.poller.dialogs[0];
      s.(sent := s.sent + [DialogNew(d.peer)], poller := Announced(d, s.poller.dialogs[1..]))
    case Seed =>
      var d := s.poller.dialog;
      s.(watermarks := s.watermarks[d.peer := d.top], poller := Announcing(s.poller.dialogs))
    case RescanDone => s.(poller := Idle)
    case TickFail => s.(poller := Idle)
    case SessionsList(dialogs) =>
      s.(mapped := Peers(dialogs), watermarks := Reseeded(s.watermarks, dialogs),
         poller := if s.poller.Absent? then Idle else s.poller)
    case SendStart(peer) => s.(handler := Sending(peer))
    case SendFail => s.(handler := Ready)
    case SendDone => s.(handler := Persisting(s.handler.peer, Mark(s.watermarks, s.handler.peer)))
    case PersistRead(found) =>
      var h := s.handler;
      s.(handler := Writing(h.peer, if found then Fresh(s.log, h.peer, h.after) else []))
    case PersistFail => s.(handler := Ready)
    case WriteBack =>
      var h := s.handler;
      s.(watermarks := if h.persisted == [] then s.watermarks
                       else s.watermarks[h.peer := MaxId(h.persisted)],
         handler := Ready)
  }

  ghost predicate IsRun(s: State, es: seq<Event>)
    decreases |es|
  {
    es == [] || (Enabled(s, es[0]) && IsRun(Step(s, es[0]), es[1..]))
  }

  ghost function After(s: State, es: seq<Event>): State
    requires IsRun(s, es)
    decreases |es|
  {
    if es == [] then s else After(Step(s, es[0]), es[1..])
  }

  // ---------- what a run must never show ----------

  ghost predicate PushedOnce(sent: seq<Frame>) {
    forall i, j :: 0 <= i < j < |sent| && sent[i].MessageNew? && sent[j].MessageNew? ==> sent[i].row != sent[j].row
  }

  ghost predicate AnnouncedOnce(sent: seq<Frame>) {
    forall i, j :: 0 <= i < j < |sent| && sent[i].DialogNew? && sent[j].DialogNew? ==> sent[i].peer != sent[j].peer
  }

  // ---------- the invariant ----------

  ghost predicate SentAtMost(sent: seq<Frame>, p: Peer, x: int) {
    forall r :: MessageNew(p, r) in sent ==> r.id <= x
  }

  ghost predicate SentBelow(sent: seq<Frame>, p: Peer, x: int) {
    forall r :: MessageNew(p, r) in sent ==> r.id < x
  }

  /** The poller is between the read and the last mark of this peer: it will raise the mark again. */
  ghost predicate Owed(poller: Poller, p: Peer) {
    || (poller.Bumping? && poller.peer == p)
    || (poller.Pushing? && poller.peer == p && poller.rows != [])
  }

  ghost predicate SnapsOk(todo: seq<Snap>, s: State) {
    && (forall i, j :: 0 <= i < j < |todo| ==> todo[i].peer != todo[j].peer)
    && (forall i :: 0 <= i < |todo| ==>
          todo[i].peer in s.watermarks && SentAtMost(s.sent, todo[i].peer, todo[i].mark))
  }

  ghost predicate NotIn(p: Peer, todo: seq<Snap>) {
    forall i :: 0 <= i < |todo| ==> todo[i].peer != p
  }

  ghost predicate FreshOk(rows: seq<Row>, p: Peer, s: State) {
    && Ascending(rows)
    && (forall r :: r in rows ==> r in s.log && IsPushable(r, p))
    && (forall i :: 0 <= i < |rows| ==> SentBelow(s.sent, p, rows[i].id))
  }

  ghost predicate PollerOk(s: State) {
    match s.poller
    case Absent => s.sent == []
    case Idle => true
    case Scanning(todo) => SnapsOk(todo, s)
    case Reading(snap, todo) =>
      SnapsOk(todo, s) && NotIn(snap.peer, todo) && snap.peer in s.watermarks
      && SentAtMost(s.sent, snap.peer, snap.mark)
    case Pushing(p, rows, todo) =>
      SnapsOk(todo, s) && NotIn(p, todo) && p in s.watermarks && FreshOk(rows, p, s)
    case Bumping(p, row, rows, todo) =>
      SnapsOk(todo, s) && NotIn(p, todo) && p in s.watermarks && FreshOk(rows, p, s)
      && SentAtMost(s.sent, p, row.id)
    case Listing => true
    case Announcing(_) => true
    case Announced(d, _) => forall r :: MessageNew(d.peer, r) !in s.sent
  }

  /** Every row pushed is below its peer's mark, unless the poller is about to raise it. */
  ghost predicate Covered(s: State) {
    forall p, r :: MessageNew(p, r) in s.sent ==>
      p in s.watermarks && (r.id <= s.watermarks[p] || Owed(s.poller, p))
  }

  ghost predicate SentRows(s: State) {
    forall p, r :: MessageNew(p, r) in s.sent ==> r in s.log && IsPushable(r, p)
  }

  ghost predicate SentDialogs(s: State) {
    forall p :: DialogNew(p) in s.sent ==> p in s.watermarks || (s.poller.Announced? && s.poller.dialog.peer == p)
  }

  ghost predicate Inv(s: State) {
    && IsLog(s.log) && PollerOk(s) && Covered(s) && SentRows(s) && SentDialogs(s)
    && PushedOnce(s.sent) && AnnouncedOnce(s.sent)
  }

  /** What the unguarded write of the send path needs: no row of the peer newer than the newest row
      read back has been pushed, unless the poller is still about to raise the mark. */
  ghost predicate WriteBackCovers(s: State)
    requires s.handler.Writing?
  {
    var h := s.handler;
    h.persisted == [] || Owed(s.poller, h.peer) || SentAtMost(s.sent, h.peer, MaxId(h.persisted))
  }

  ghost predicate Allowed(s: State, e: Event)
    requires Enabled(s, e)
  {
    e.WriteBack? ==> WriteBackCovers(s)
  }

  lemma {:induction false} ReseededMarks(m: map<Peer, int>, dialogs: seq<Dialog>, log: seq<Row>)
    requires IsListing(dialogs, log)
    ensures var m' := Reseeded(m, dialogs);
      && m'.Keys == m.Keys + Peers(dialogs)
      && forall p :: p in m' ==> m'[p] == if p in Peers(dialogs) then Top(log, p) else m[p]
  {
    if dialogs != [] {
      var front := dialogs[..|dialogs| - 1];
      ReseededMarks(m, front, log);
      assert forall p :: p in Peers(dialogs) <==> p in Peers(front) || p == dialogs[|dialogs| - 1].peer by {
        forall p | p in Peers(dialogs) ensures p in Peers(front) || p == dialogs[|dialogs| - 1].peer {
          var i :| 0 <= i < |dialogs| && dialogs[i].peer == p;
          assert i < |front| ==> front[i].peer == p;
        }
        forall p | p in Peers(front) ensures p in Peers(dialogs) {
          var i :| 0 <= i < |front| && front[i].peer == p;
          assert dialogs[i].peer == p;
        }
      }
    }
  }

  lemma KeepsAppend(s: State, row: Row)
    requires Inv(s) && Enabled(s, Append(row))
    ensures Inv(Step(s, Append(row)))
  {
    AppendKeepsLog(s.log, row);
  }

  lemma KeepsRemap(s: State, mapped: set<Peer>)
    requires Inv(s)
    ensures Inv(Step(s, Remap(mapped)))
  {
    hide PushedOnce, AnnouncedOnce, IsLog;
  }

  lemma MarksBoundSent(s: State, items: seq<Snap>)
    requires Covered(s) && s.poller.Idle? && IsItems(items, s.watermarks)
    ensures SnapsOk(items, s)
  {
  }

  lemma KeepsTickStart(s: State, items: seq<Snap>)
    requires Inv(s) && Enabled(s, TickStart(items))
    ensures Inv(Step(s, TickStart(items)))
  {
    hide PushedOnce, AnnouncedOnce, IsLog, IsItems;
    MarksBoundSent(s, items);
  }

  lemma KeepsSubmit(s: State)
    requires Inv(s) && Enabled(s, Submit)
    ensures Inv(Step(s, Submit))
  {
    hide PushedOnce, AnnouncedOnce, IsLog;
  }

  lemma KeepsReadDone(s: State, found: bool)
    requires Inv(s) && Enabled(s, ReadDone(found))
    ensures Inv(Step(s, ReadDone(found)))
  {
    hide PushedOnce, AnnouncedOnce, IsLog, Fresh;
    FreshRows(s.log, s.poller.snap.peer, s.poller.snap.mark);
  }

  lemma KeepsPush(s: State)
    requires Inv(s) && Enabled(s, Push)
    ensures Inv(Step(s, Push))
  {
    hide IsLog;
    var p, rows := s.poller.peer, s.poller.rows;
    var s' := Step(s, Push);
    assert s'.sent == s.sent + [MessageNew(p, rows[0])];
    assert forall f :: f in s'.sent <==> f in s.sent || f == MessageNew(p, rows[0]);
    assert rows[0] in rows;
    forall i | 0 <= i < |s.sent| && s.sent[i].MessageNew? ensures s.sent[i].row != rows[0] {
      assert MessageNew(s.sent[i].peer, s.sent[i].row) == s.sent[i];
    }
  }

  lemma KeepsBump(s: State)
    requires Inv(s) && Enabled(s, Bump)
    ensures Inv(Step(s, Bump))
  {
  }

  lemma KeepsScan(s: State, e: Event)
    requires Inv(s) && Enabled(s, e)
    requires e.PeerDone? || e.ScanDone? || e.RescanRead? || e.Skip? || e.Seed? || e.RescanDone? || e.TickFail?
    ensures Inv(Step(s, e))
  {
  }

  lemma KeepsAnnounce(s: State)
    requires Inv(s) && Enabled(s, Announce)
    ensures Inv(Step(s, Announce))
  {
    var s' := Step(s, Announce);
    var d := s.poller.dialogs[0];
    assert forall f :: f in s'.sent <==> f in s.sent || f == DialogNew(d.peer);
    forall i | 0 <= i < |s.sent| && s.sent[i].DialogNew? ensures s.sent[i].peer != d.peer {
      assert DialogNew(s.sent[i].peer) == s.sent[i];
    }
  }

  lemma KeepsSessionsList(s: State, dialogs: seq<Dialog>)
    requires Inv(s) && Enabled(s, SessionsList(dialogs))
    ensures Inv(Step(s, SessionsList(dialogs)))
  {
    ReseededMarks(s.watermarks, dialogs, s.log);
    forall p, r | MessageNew(p, r) in s.sent && p in Peers(dialogs) ensures r.id <= Top(s.log, p) {
      TopBounds(s.log, p);
    }
  }

  lemma KeepsHandler(s: State, e: Event)
    requires Inv(s) && Enabled(s, e)
    requires e.SendStart? || e.SendFail? || e.SendDone? || e.PersistRead? || e.PersistFail?
    ensures Inv(Step(s, e))
  {
    hide PushedOnce, AnnouncedOnce, IsLog, Fresh, NotIn, IsPushable, Ascending;
  }

  /** A write that covers leaves every pushed row at or below its mark, or owed. */
  lemma KeepsWriteBack(s: State)
    requires Inv(s) && Enabled(s, WriteBack) && WriteBackCovers(s)
    ensures Inv(Step(s, WriteBack))
  {
    hide PushedOnce, AnnouncedOnce, IsLog, NotIn, IsPushable, Ascending, MaxId;
  }

  /** Every transition keeps the invariant, the send path's write under its condition. */
  lemma StepKeepsInv(s: State, e: Event)
    requires Inv(s) && Enabled(s, e) && Allowed(s, e)
    ensures Inv(Step(s, e))
  {
    hide Inv, Step, Enabled;
    match e {
      case Append(row) => KeepsAppend(s, row);
      case Remap(mapped) => KeepsRemap(s, mapped);
      case Push => KeepsPush(s);
      case Bump => KeepsBump(s);
      case Announce => KeepsAnnounce(s);
      case SessionsList(dialogs) => KeepsSessionsList(s, dialogs);
      case TickStart(items) => KeepsTickStart(s, items);
      case Submit => KeepsSubmit(s);
      case ReadDone(found) => KeepsReadDone(s, found);
      case PeerDone => KeepsScan(s, e);
      case ScanDone => KeepsScan(s, e);
      case RescanRead(_) => KeepsScan(s, e);
      case Skip => KeepsScan(s, e);
      case Seed => KeepsScan(s, e);
      case RescanDone => KeepsScan(s, e);
      case TickFail => KeepsScan(s, e);
      case SendStart(_) => KeepsHandler(s, e);
      case SendFail => KeepsHandler(s, e);
      case SendDone => KeepsHandler(s, e);
      case PersistRead(_) => KeepsHandler(s, e);
      case PersistFail => KeepsHandler(s, e);
      case WriteBack => KeepsWriteBack(s);
    }
  }
}
