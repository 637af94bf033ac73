/** How the shell gets its frame reloaded: by the frame itself, or by a new frame when that takes too long. */
module ShellReload {
  import opened Basics
  import opened Shell

  /** A new frame: of the next generation, not loaded, with an empty queue and no timer. */
  ghost predicate IsNewFrame(s: State, t: State)
    requires Logged(s) && Logged(t)
  {
    && t.iframe == Some(s.frameGeneration + 1) && t.frameGeneration == s.frameGeneration + 1 && t.window
    && !t.frameLoaded && !t.reloadSupported && t.pendingEvents == [] && t.reloadTimeout == 0 && t.armed == {}
    && t.asked == s.asked
    && t.posted == s.posted + [[]] && t.delivered == s.delivered + [[]]
  }

  /**
   * Without a frame nothing is reloaded. A loaded frame that can reload itself is asked to, once, and a timer is
   * armed in place of any other; the frame and all events stay. Any other frame is replaced.
   */
  lemma ReloadAsksOrReplaces(s: State)
    requires Inv(s)
    ensures var t := Step(s, Reload);
      if s.iframe.None? then t == s
      else if s.reloadSupported && s.frameLoaded then
        && t.asked == s.asked + [s.frameGeneration]
        && t.reloadTimeout == s.nextTimer && t.armed == {s.nextTimer} && t.nextTimer == s.nextTimer + 1
        && t == s.(asked := t.asked, reloadTimeout := t.reloadTimeout, armed := t.armed, nextTimer := t.nextTimer)
      else IsNewFrame(s, t)
  {
    hide QueueIsSuffix, BeforeQueue, QueueIsLatest, LostOnlyToNewer, InOrder;
  }

  /** Opening a web app puts a new frame in, whatever was there. */
  lemma CreateReplaces(s: State)
    requires Inv(s)
    ensures IsNewFrame(s, Step(s, Create))
  {
    hide QueueIsSuffix, BeforeQueue, QueueIsLatest, LostOnlyToNewer, InOrder;
  }

  /** The timer that goes off puts a new frame in. */
  lemma TimerReplacesFrame(s: State, timer: int)
    requires Inv(s) && timer in s.armed
    ensures IsNewFrame(s, Step(s, Fire(timer)))
  {
    hide QueueIsSuffix, BeforeQueue, QueueIsLatest, LostOnlyToNewer, InOrder;
  }

  /** A frame that announces its own reload stays, is not loaded until it is again, and no timer will replace it. */
  lemma OwnReloadKeepsFrame(s: State)
    requires Inv(s) && s.iframe.Some?
    ensures var t := Step(s, WillReload);
      && t.iframe == s.iframe && t.frameGeneration == s.frameGeneration && !t.frameLoaded && t.armed == {}
      && t.asked == s.asked && t.posted == s.posted && t.delivered == s.delivered && t.pendingEvents == s.pendingEvents
  {
    hide QueueIsSuffix, BeforeQueue, QueueIsLatest, LostOnlyToNewer, InOrder;
  }

  // ---------- over runs ----------

  /** The run neither replaces the frame nor ends its asking: no new frame, no reload, own or asked for, no timer. */
  ghost predicate Waits(inputs: seq<Input>) {
    forall i :: 0 <= i < |inputs| ==>
      !inputs[i].Create? && !inputs[i].Reload? && !inputs[i].WillReload? && !inputs[i].Fire?
  }

  lemma WaitStep(s: State, i: Input)
    requires Inv(s) && Enabled(s, i) && Waits([i])
    ensures var t := Step(s, i);
      t.frameGeneration == s.frameGeneration && t.iframe == s.iframe && t.armed == s.armed && t.asked == s.asked
  {
    assert [i][0] == i;
    hide QueueIsSuffix, BeforeQueue, QueueIsLatest, LostOnlyToNewer, InOrder, OneTimer;
    if i.Load? && s.iframe == Some(i.generation) && i.generation == s.frameGeneration {
      FlushKeepsFrame(s.(frameLoaded := true, pendingEvents := []), s.pendingEvents);
    }
  }

  lemma {:induction false} FlushKeepsFrame(s: State, queue: seq<Queued>)
    requires Logged(s)
    ensures Flush(s, queue) == s.(delivered := Flush(s, queue).delivered)
    decreases |queue|
  {
    if queue != [] {
      FlushKeepsFrame(s, queue[..|queue| - 1]);
    }
  }

  /** While the asked frame keeps silent, whatever else happens, its timer stays armed and will replace it. */
  lemma {:induction false} SilentFrameIsReplaced(s: State, inputs: seq<Input>, timer: int)
    requires Inv(s) && IsRun(s, inputs) && Waits(inputs) && timer in s.armed
    ensures var t := After(s, inputs);
      && t.asked == s.asked && t.frameGeneration == s.frameGeneration && Enabled(t, Fire(timer))
      && IsNewFrame(t, Step(t, Fire(timer)))
    decreases |inputs|
  {
    if inputs == [] {
      TimerReplacesFrame(s, timer);
    } else {
      assert [inputs[0]][0] == inputs[0];
      WaitStep(s, inputs[0]);
      StepKeepsInv(s, inputs[0]);
      hide Inv, Step, IsNewFrame;
      SilentFrameIsReplaced(Step(s, inputs[0]), inputs[1..], timer);
    }
  }

  // ---------- which events wait, which are sent at once ----------

  /** Only a loaded frame is sent an event at once; otherwise the event waits for the frame's load. */
  lemma PostSendsOrQueues(s: State, event: Event)
    requires Inv(s)
    ensures var g, n := s.frameGeneration, |s.posted[s.frameGeneration]|;
      var t := PostToFrame(s, event);
      && t.posted == s.posted[g := s.posted[g] + [event]]
      && if s.frameLoaded then
           t.pendingEvents == [] && t.delivered == s.delivered[g := s.delivered[g] + [Sent(event, n)]]
         else
           && t.delivered == s.delivered && t.pendingEvents != []
           && t.pendingEvents[|t.pendingEvents| - 1] == Queued(g, event, n)
  {
    hide QueueIsSuffix, BeforeQueue, LostOnlyToNewer, InOrder;
  }

  /** The load of the current frame, and of no other, sends all that waits, in order. */
  lemma LoadSendsAllThatWaits(s: State, generation: nat)
    requires Inv(s) && generation <= s.frameGeneration
    ensures var t := Step(s, Load(generation));
      if s.iframe == Some(generation) then
        && t.frameLoaded && t.pendingEvents == []
        && t.delivered == s.delivered[generation := s.delivered[generation] + Sents(s.pendingEvents)]
      else t == s
  {
    if s.iframe == Some(generation) {
      FlushDelivers(s.(frameLoaded := true, pendingEvents := []), s.pendingEvents);
    }
    hide BeforeQueue, LostOnlyToNewer, InOrder, Flush;
  }

  /** The frame says whether it can reload itself. */
  lemma ReadyTells(s: State, supported: bool)
    requires Inv(s) && s.iframe.Some?
    ensures Step(s, Ready(supported)) == s.(reloadSupported := supported)
  {
    hide Inv, QueueInv;
  }
}
