/** The web-app shell's queue of events for its frame, and the reload timer, over every run. */
module Shell {
  import opened Basics

  type Event = string

  const MAX_PENDING := 64

  /** `index` is the event's place among those posted in its generation. */
  datatype Queued = Queued(generation: nat, event: Event, index: nat)

  datatype Sent = Sent(event: Event, index: nat)

  datatype State = State(
    iframe: Option<nat>,              // the attached frame, named by the generation it was created in
    window: bool,                     // whether the attached frame has its content window
    frameLoaded: bool,
    frameGeneration: nat,
    reloadSupported: bool,
    pendingEvents: seq<Queued>,
    reloadTimeout: int,               // 0 when there is none
    armed: set<int>,                  // the timers that are set and not cleared
    nextTimer: int,
    posted: seq<seq<Event>>,          // per generation
    delivered: seq<seq<Sent>>,        // per frame
    asked: seq<nat>,                  // the frames asked to reload themselves
    base: nat)                        // events posted before the frame was last unloaded

  const START := State(None, false, false, 0, false, [], 0, {}, 1, [[]], [[]], [], 0)

  datatype Input =
    | Post(event: Event)
    | Create                 // bootstrap
    | Load(generation: nat)  // the load handler of the frame of a generation
    | Ready(supported: bool) // iframe_ready from the attached frame
    | WillReload             // iframe_will_reload from the attached frame
    | Reload
    | Fire(timer: int)

  predicate Enabled(s: State, i: Input) {
    match i
    case Load(generation) => generation <= s.frameGeneration
    case Ready(_) => s.iframe.Some? && s.window
    case WillReload => s.iframe.Some? && s.window
    case Fire(timer) => timer in s.armed
    case _ => true
  }

  /** Frames and generations that exist have their logs. */
  predicate Logged(s: State) {
    && |s.posted| == |s.delivered| == s.frameGeneration + 1
    && (s.iframe.Some? ==> s.iframe.value == s.frameGeneration)
  }

  function SendToFrame(s: State, q: Queued): State
    requires Logged(s)
  {
    if s.iframe.None? || !s.window || q.generation != s.frameGeneration then s
    else s.(delivered := s.delivered[s.iframe.value := s.delivered[s.iframe.value] + [Sent(q.event, q.index)]])
  }

  function Last<T>(q: seq<T>, n: nat): seq<T> { if |q| <= n then q else q[|q| - n..] }

  function PostToFrame(s: State, event: Event): (s': State)
    requires Logged(s)
    ensures Logged(s')
  {
    var g := s.frameGeneration;
    var q := Queued(g, event, |s.posted[g]|);
    var t := s.(posted := s.posted[g := s.posted[g] + [event]]);
    if s.iframe.None? || !s.window || !s.frameLoaded then t.(pendingEvents := Last(t.pendingEvents + [q], MAX_PENDING))
    else SendToFrame(t, q)
  }

  function Flush(s: State, queue: seq<Queued>): (s': State)
    requires Logged(s)
    ensures Logged(s')
    decreases |queue|
  {
    if queue == [] then s
    else
      var before := Flush(s, queue[..|queue| - 1]);
      var last := queue[|queue| - 1];
      if last.generation == s.frameGeneration then SendToFrame(before, last) else before
  }

  function CreateIframe(s: State): (s': State)
    requires Logged(s)
    ensures Logged(s')
  {
    var g := s.frameGeneration + 1;
    State(Some(g), true, false, g, false, [], 0, s.armed - {s.reloadTimeout}, s.nextTimer,
          s.posted + [[]], s.delivered + [[]], s.asked, 0)
  }

  function ReloadFrame(s: State): (s': State)
    requires Logged(s)
    ensures Logged(s')
  {
    if s.iframe.None? then s
    else if s.reloadSupported && s.frameLoaded && s.window then
      s.(asked := s.asked + [s.iframe.value], armed := s.armed - {s.reloadTimeout} + {s.nextTimer},
         reloadTimeout := s.nextTimer, nextTimer := s.nextTimer + 1)
    else CreateIframe(s)
  }

  function Step(s: State, i: Input): (s': State)
    requires Logged(s) && Enabled(s, i)
    ensures Logged(s')
  {
    match i
    case Post(event) => PostToFrame(s, event)
    case Create => CreateIframe(s)
    case Load(generation) =>
      if s.iframe != Some(generation) || generation != s.frameGeneration then s
      else Flush(s.(frameLoaded := true, pendingEvents := []), s.pendingEvents)
    case Ready(supported) => s.(reloadSupported := supported)
    case WillReload =>
      s.(armed := s.armed - {s.reloadTimeout}, reloadTimeout := 0, frameLoaded := false,
         base := if s.frameLoaded then |s.posted[s.frameGeneration]| else s.base)
    case Reload => ReloadFrame(s)
    case Fire(timer) => CreateIframe(s.(armed := s.armed - {timer}, reloadTimeout := 0))
  }

  // ---------- what holds in every run ----------

  /** The queue is a suffix of the events posted in the current generation. */
  ghost predicate QueueIsSuffix(s: State)
    requires Logged(s)
  {
    var posted := s.posted[s.frameGeneration];
    var skipped := |posted| - |s.pendingEvents|;
    && |s.pendingEvents| <= MAX_PENDING && |s.pendingEvents| <= |posted|
    && forall k :: 0 <= k < |s.pendingEvents| ==>
      s.pendingEvents[k] == Queued(s.frameGeneration, posted[skipped + k], skipped + k)
  }

  /** A frame got events posted in its own generation, each at most once, in the order of posting. */
  ghost predicate InOrder(delivered: seq<Sent>, posted: seq<Event>) {
    && (forall k :: 0 <= k < |delivered| ==>
      delivered[k].index < |posted| && delivered[k].event == posted[delivered[k].index])
    && (forall j, k :: 0 <= j < k < |delivered| ==> delivered[j].index < delivered[k].index)
  }

  /** What the frame has got comes before everything that is still queued. */
  ghost predicate BeforeQueue(s: State)
    requires Logged(s)
  {
    var d := s.delivered[s.frameGeneration];
    forall k :: 0 <= k < |d| ==> d[k].index < |s.posted[s.frameGeneration]| - |s.pendingEvents|
  }

  /** At most one reload timer is armed, and it is the one that is noted. */
  ghost predicate OneTimer(s: State) {
    && 0 < s.nextTimer && 0 <= s.reloadTimeout < s.nextTimer
    && s.armed == if s.reloadTimeout == 0 then {} else {s.reloadTimeout}
  }

  /** A loaded frame leaves nothing queued; otherwise the last 64 events since it was unloaded are. */
  ghost predicate QueueIsLatest(s: State)
    requires Logged(s)
  {
    var n := |s.posted[s.frameGeneration]|;
    && s.base <= n
    && |s.pendingEvents| == if s.frameLoaded then 0 else if n - s.base <= MAX_PENDING then n - s.base else MAX_PENDING
  }

  ghost predicate Got(delivered: seq<Sent>, index: int) {
    exists k :: 0 <= k < |delivered| && delivered[k].index == index
  }

  /** An event of the current generation is lost only when 64 newer ones have been posted. */
  ghost predicate LostOnlyToNewer(s: State)
    requires Logged(s)
  {
    var g := s.frameGeneration;
    forall i :: 0 <= i < |s.posted[g]| - |s.pendingEvents| && !Got(s.delivered[g], i) ==>
      i + MAX_PENDING < |s.posted[g]|
  }

  ghost predicate QueueInv(s: State) {
    && Logged(s) && QueueIsSuffix(s) && BeforeQueue(s) && QueueIsLatest(s) && LostOnlyToNewer(s) && OneTimer(s)
    && (s.frameLoaded ==> s.iframe.Some?)
    && forall g :: 0 <= g <= s.frameGeneration ==> InOrder(s.delivered[g], s.posted[g])
  }

  /** A frame is taken out of the document only when the next one is put in, so an attached one has its window. */
  ghost predicate Inv(s: State) { QueueInv(s) && (s.iframe.Some? ==> s.window) }

  lemma StartKeepsInv()
    ensures Inv(START)
  {
  }

  lemma CreateKeepsInv(s: State)
    requires Logged(s) && OneTimer(s)
    requires forall g :: 0 <= g <= s.frameGeneration ==> InOrder(s.delivered[g], s.posted[g])
    ensures Inv(CreateIframe(s))
  {
    hide InOrder;
    EmptyInOrder([]);
  }

  lemma EmptyInOrder(posted: seq<Event>)
    ensures InOrder([], posted)
  {
  }

  lemma MorePosted(delivered: seq<Sent>, posted: seq<Event>, event: Event)
    requires InOrder(delivered, posted)
    ensures InOrder(delivered, posted + [event])
  {
  }

  lemma MoreDelivered(delivered: seq<Sent>, posted: seq<Event>, index: nat)
    requires InOrder(delivered, posted) && index < |posted|
    requires forall k :: 0 <= k < |delivered| ==> delivered[k].index < index
    ensures InOrder(delivered + [Sent(posted[index], index)], posted)
  {
  }

  lemma PostKeepsInv(s: State, event: Event)
    requires Inv(s)
    ensures Inv(PostToFrame(s, event))
  {
    hide InOrder, LostOnlyToNewer, QueueIsSuffix, BeforeQueue;
    var g := s.frameGeneration;
    MorePosted(s.delivered[g], s.posted[g], event);
    if s.iframe.Some? && s.frameLoaded {
      PostSent(s, event);
    } else {
      QueueGrows(s, event);
      LostStays(s, event);
    }
  }

  lemma PostSent(s: State, event: Event)
    requires Inv(s) && s.frameLoaded
    ensures var s' := PostToFrame(s, event);
      && QueueIsSuffix(s') && BeforeQueue(s') && LostOnlyToNewer(s')
      && InOrder(s'.delivered[s.frameGeneration], s'.posted[s.frameGeneration])
  {
    var g := s.frameGeneration;
    var n := |s.posted[g]|;
    var s' := PostToFrame(s, event);
    MorePosted(s.delivered[g], s.posted[g], event);
    PrecedesAll(s);
    MoreDelivered(s.delivered[g], s'.posted[g], n);
    forall i | 0 <= i < n + 1 && !Got(s'.delivered[g], i) ensures i + MAX_PENDING < n + 1 {
      GotMore(s.delivered[g], Sent(event, n), i);
    }
  }

  lemma GotMore(delivered: seq<Sent>, last: Sent, i: int)
    ensures Got(delivered + [last], i) <==> Got(delivered, i) || last.index == i
  {
    var more := delivered + [last];
    if k :| 0 <= k < |delivered| && delivered[k].index == i {
      assert more[k].index == i;
    }
    if last.index == i {
      assert more[|delivered|].index == i;
    }
  }

  lemma LostStays(s: State, event: Event)
    requires Inv(s) && !s.frameLoaded
    ensures LostOnlyToNewer(PostToFrame(s, event))
  {
    hide InOrder;
  }

  lemma PrecedesAll(s: State)
    requires Logged(s) && BeforeQueue(s)
    ensures forall k :: 0 <= k < |s.delivered[s.frameGeneration]| ==>
      s.delivered[s.frameGeneration][k].index < |s.posted[s.frameGeneration]|
  {
  }

  lemma QueueGrows(s: State, event: Event)
    requires Logged(s) && QueueIsSuffix(s) && BeforeQueue(s)
    ensures var g := s.frameGeneration;
      var s' := s.(posted := s.posted[g := s.posted[g] + [event]],
        pendingEvents := Last(s.pendingEvents + [Queued(g, event, |s.posted[g]|)], MAX_PENDING));
      QueueIsSuffix(s') && BeforeQueue(s')
  {
  }

  function Sents(queue: seq<Queued>): (r: seq<Sent>)
    ensures |r| == |queue| && forall k :: 0 <= k < |queue| ==> r[k] == Sent(queue[k].event, queue[k].index)
  {
    seq(|queue|, k requires 0 <= k < |queue| => Sent(queue[k].event, queue[k].index))
  }

  lemma {:induction false} FlushDelivers(s: State, queue: seq<Queued>)
    requires Logged(s) && s.iframe.Some? && s.window && forall k :: 0 <= k < |queue| ==>
      queue[k].generation == s.frameGeneration
    ensures var g := s.frameGeneration;
      Flush(s, queue) == s.(delivered := s.delivered[g := s.delivered[g] + Sents(queue)])
    decreases |queue|
  {
    var g := s.frameGeneration;
    if queue == [] {
      assert s.delivered[g] + Sents(queue) == s.delivered[g];
    } else {
      var n := |queue| - 1;
      FlushDelivers(s, queue[..n]);
      assert s.delivered[g] + Sents(queue)
        == s.delivered[g] + Sents(queue[..n]) + [Sent(queue[n].event, queue[n].index)];
    }
  }

  /** Flushing the queue delivers all of it, in order, after what was delivered before. */
  lemma QueueDelivered(s: State)
    requires Inv(s) && s.iframe.Some?
    ensures var g := s.frameGeneration;
      var all := s.delivered[g] + Sents(s.pendingEvents);
      && InOrder(all, s.posted[g])
      && (forall i :: 0 <= i < |s.posted[g]| && !Got(all, i) ==> i + MAX_PENDING < |s.posted[g]|)
      && (forall k :: 0 <= k < |all| ==> all[k].index < |s.posted[g]|)
  {
    var g := s.frameGeneration;
    var d, posted, queue := s.delivered[g], s.posted[g], s.pendingEvents;
    var all := d + Sents(queue);
    forall i | 0 <= i < |posted| ensures Got(all, i) || i + MAX_PENDING < |posted| {
      if i >= |posted| - |queue| {
        assert all[|d| + (i - (|posted| - |queue|))].index == i;
      } else if Got(d, i) {
        var k :| 0 <= k < |d| && d[k].index == i;
        assert all[k].index == i;
      }
    }
  }

  lemma LoadKeepsInv(s: State)
    requires Inv(s) && s.iframe.Some?
    ensures Inv(Flush(s.(frameLoaded := true, pendingEvents := []), s.pendingEvents))
  {
    hide InOrder;
    FlushDelivers(s.(frameLoaded := true, pendingEvents := []), s.pendingEvents);
    QueueDelivered(s);
    hide Got;
  }

  lemma StepKeepsInv(s: State, i: Input)
    requires Inv(s) && Enabled(s, i)
    ensures Inv(Step(s, i))
  {
    hide InOrder, Got;
    match i
    case Post(event) => PostKeepsInv(s, event);
    case Create => CreateKeepsInv(s);
    case Load(generation) =>
      if s.iframe == Some(generation) {
        LoadKeepsInv(s);
      }
    case Ready(_) =>
    case WillReload =>
    case Reload =>
      if s.iframe.Some? && !(s.reloadSupported && s.frameLoaded) {
        CreateKeepsInv(s);
      }
    case Fire(timer) => CreateKeepsInv(s.(armed := s.armed - {timer}, reloadTimeout := 0));
  }

  ghost predicate IsRun(s: State, inputs: seq<Input>)
    requires Logged(s)
    decreases |inputs|
  {
    inputs == [] || (Enabled(s, inputs[0]) && IsRun(Step(s, inputs[0]), inputs[1..]))
  }

  ghost function After(s: State, inputs: seq<Input>): (s': State)
    requires Logged(s) && IsRun(s, inputs)
    ensures Logged(s')
    decreases |inputs|
  {
    if inputs == [] then s else After(Step(s, inputs[0]), inputs[1..])
  }

  lemma {:induction false} RunKeepsInv(s: State, inputs: seq<Input>)
    requires Inv(s) && IsRun(s, inputs)
    ensures Inv(After(s, inputs))
    decreases |inputs|
  {
    hide Step;
    if inputs != [] {
      StepKeepsInv(s, inputs[0]);
      hide Inv;
      RunKeepsInv(Step(s, inputs[0]), inputs[1..]);
    }
  }

  /**
   * The queue after any run: bounded, of the current generation only, empty once the frame is loaded; one timer
   * at most.
   */
  lemma QueueInEveryRun(inputs: seq<Input>)
    requires IsRun(START, inputs)
    ensures var s := After(START, inputs);
      && |s.pendingEvents| <= 64 && |s.armed| <= 1
      && (s.iframe.Some? ==> s.window)
      && (s.frameLoaded ==> s.pendingEvents == [])
      && (forall q :: q in s.pendingEvents ==> q.generation == s.frameGeneration)
      && (forall t :: t in s.armed <==> t == s.reloadTimeout && t != 0)
  {
    StartKeepsInv();
    RunKeepsInv(START, inputs);
    hide InOrder, Got;
  }

  /** What each frame got in any run, and what of the current generation it will never get. */
  lemma DeliveryInEveryRun(inputs: seq<Input>, g: nat)
    requires IsRun(START, inputs)
    requires g <= After(START, inputs).frameGeneration
    ensures var s := After(START, inputs);
      && InOrder(s.delivered[g], s.posted[g])
      && (g == s.frameGeneration ==> forall i ::
        0 <= i < |s.posted[g]| - |s.pendingEvents| && !Got(s.delivered[g], i) ==> i + 64 < |s.posted[g]|)
  {
    StartKeepsInv();
    RunKeepsInv(START, inputs);
    hide InOrder, Got;
  }

  // ---------- why the window matters ----------

  /** Were the window of a loaded frame gone, a post would break all of this; with it, it never does. */
  lemma LoadedPostNeedsWindow(s: State, event: Event, window: bool)
    requires Inv(s) && s.frameLoaded
    ensures QueueInv(PostToFrame(s.(window := window), event)) <==> window
  {
    if window {
      PostKeepsInv(s, event);
    } else {
      assert |PostToFrame(s.(window := window), event).pendingEvents| == 1;
    }
    hide InOrder, Got;
  }

  /** Such an event would be overtaken by the next one, posted with the window back. */
  lemma WindowlessPostIsOvertaken(s: State, a: Event, b: Event, s1: State, s2: State, s3: State)
    requires Inv(s) && s.frameLoaded
    requires s1 == PostToFrame(s.(window := false), a) && s2 == PostToFrame(s1.(window := true), b)
    requires s3 == Step(s2, Load(s2.frameGeneration))
    ensures s3.frameGeneration == s.frameGeneration
    ensures var g := s.frameGeneration;
      var n := |s.posted[g]|;
      && s3.posted[g] == s.posted[g] + [a, b]
      && s3.delivered[g] == s.delivered[g] + [Sent(b, n + 1), Sent(a, n)]
      && !InOrder(s3.delivered[g], s3.posted[g])
  {
    hide InOrder, Got, LostOnlyToNewer, BeforeQueue, OneTimer, QueueIsSuffix;
    var g := s.frameGeneration;
    var n := |s.posted[g]|;
    assert s1.pendingEvents == [Queued(g, a, n)] && s1.delivered == s.delivered && s1.iframe == Some(g) &&
      s1.frameLoaded;
    assert s2.posted[g] == s1.posted[g] + [b] == s.posted[g] + [a, b];
    assert s2.delivered[g] == s.delivered[g] + [Sent(b, n + 1)] && s2.pendingEvents == s1.pendingEvents;
    Reloaded(s2, Queued(g, a, n));
    var d := s.delivered[g] + [Sent(b, n + 1), Sent(a, n)];
    assert s3.delivered[g] == d;
    Unordered(d, s.posted[g] + [a, b], |d| - 2);
  }

  lemma Reloaded(s: State, q: Queued)
    requires Logged(s) && s.iframe.Some? && s.window && s.pendingEvents == [q] && q.generation == s.frameGeneration
    ensures var g := s.frameGeneration;
      Step(s, Load(g)) == s.(frameLoaded := true, pendingEvents := [],
        delivered := s.delivered[g := s.delivered[g] + [Sent(q.event, q.index)]])
  {
    FlushDelivers(s.(frameLoaded := true, pendingEvents := []), s.pendingEvents);
    assert Sents(s.pendingEvents) == [Sent(q.event, q.index)];
  }

  lemma Unordered(delivered: seq<Sent>, posted: seq<Event>, k: nat)
    requires k + 1 < |delivered| && delivered[k].index > delivered[k + 1].index
    ensures !InOrder(delivered, posted)
  {
  }
}
