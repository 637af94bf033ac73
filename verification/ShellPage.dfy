/** The shell page's own functions, against the state machine of `Shell`. */
module ShellPage {
  import opened Basics
  import opened Shell

  class Window {
    var iframe: Option<nat>
    var contentWindow: bool
    var frameLoaded: bool
    var frameGeneration: nat
    var reloadSupported: bool
    var reloadTimeout: int
    var pendingEvents: seq<Queued>
    var armed: set<int>
    var nextTimer: int
    var posted: seq<seq<Event>>
    var delivered: seq<seq<Sent>>
    var asked: seq<nat>
    ghost var base: nat

    ghost function View(): State
      reads this
    {
      State(iframe, contentWindow, frameLoaded, frameGeneration, reloadSupported, pendingEvents, reloadTimeout, armed,
        nextTimer,
            posted, delivered, asked, base)
    }

    constructor ()
      ensures View() == START
    {
      iframe, contentWindow, frameLoaded, frameGeneration, reloadSupported, reloadTimeout :=
        None, false, false, 0, false, 0;
      pendingEvents, armed, nextTimer, posted, delivered, asked, base := [], {}, 1, [[]], [[]], [], 0;
    }

    method SendToFrame(event: Queued)
      requires Logged(View())
      modifies this`delivered
      ensures View() == Shell.SendToFrame(old(View()), event)
    {
      if iframe.None? || !contentWindow || event.generation != frameGeneration {
        return;
      }
      delivered := delivered[iframe.value := delivered[iframe.value] + [Sent(event.event, event.index)]];
    }

    method PostToFrame(event: Event)
      requires Logged(View())
      modifies this`pendingEvents, this`posted, this`delivered
      ensures View() == Shell.PostToFrame(old(View()), event)
    {
      var queued := Queued(frameGeneration, event, |posted[frameGeneration]|);
      posted := posted[frameGeneration := posted[frameGeneration] + [event]];
      if iframe.None? || !contentWindow || !frameLoaded {
        pendingEvents := pendingEvents + [queued];
        ghost var all := pendingEvents;
        ghost var shifted := 0;
        while |pendingEvents| > MAX_PENDING
          invariant 0 <= shifted <= |all| && pendingEvents == all[shifted..]
          invariant shifted > 0 ==> |pendingEvents| >= MAX_PENDING
          invariant posted == old(posted[frameGeneration := posted[frameGeneration] + [event]]) &&
            delivered == old(delivered)
          decreases |pendingEvents|
        {
          pendingEvents := pendingEvents[1..];
          shifted := shifted + 1;
        }
        return;
      }
      SendToFrame(queued);
    }

    method FlushPendingEvents()
      requires Logged(View())
      modifies this`pendingEvents, this`delivered
      ensures View() == Flush(old(View()).(pendingEvents := []), old(pendingEvents))
    {
      var pending := pendingEvents;
      pendingEvents := [];
      ghost var start := View();
      for i := 0 to |pending|
        invariant Logged(start) && View() == Flush(start, pending[..i])
        invariant frameGeneration == start.frameGeneration
      {
        assert pending[..i + 1][..i] == pending[..i];
        if pending[i].generation == frameGeneration {
          SendToFrame(pending[i]);
        }
      }
      assert pending[..|pending|] == pending;
    }

    method ClearReloadTimeout()
      requires OneTimer(View())
      modifies this`armed, this`reloadTimeout
      ensures armed == old(armed) - {old(reloadTimeout)} && reloadTimeout == 0
    {
      if reloadTimeout != 0 {
        armed := armed - {reloadTimeout};
        reloadTimeout := 0;
      }
    }

    method CreateIframe()
      requires Logged(View()) && OneTimer(View())
      modifies this
      ensures View() == Shell.CreateIframe(old(View()))
    {
      ClearReloadTimeout();
      frameGeneration := frameGeneration + 1;
      pendingEvents := [];
      frameLoaded := false;
      reloadSupported := false;
      iframe := Some(frameGeneration);
      contentWindow := true;
      posted, delivered, base := posted + [[]], delivered + [[]], 0;
    }

    /** The load handler of the frame created in a generation. */
    method OnLoad(generation: nat)
      requires Logged(View()) && generation <= frameGeneration
      modifies this`frameLoaded, this`pendingEvents, this`delivered
      ensures View() == Step(old(View()), Load(generation))
    {
      if iframe != Some(generation) || generation != frameGeneration {
        return;
      }
      frameLoaded := true;
      FlushPendingEvents();
    }

    method OnReady(supported: bool)
      requires Logged(View()) && iframe.Some? && contentWindow
      modifies this`reloadSupported
      ensures View() == Step(old(View()), Ready(supported))
    {
      reloadSupported := supported;
    }

    method OnWillReload()
      requires Logged(View()) && OneTimer(View()) && iframe.Some? && contentWindow
      modifies this`armed, this`reloadTimeout, this`frameLoaded, this`base
      ensures View() == Step(old(View()), WillReload)
    {
      ClearReloadTimeout();
      if frameLoaded {
        base := |posted[frameGeneration]|;
      }
      frameLoaded := false;
    }

    method ReloadFrame()
      requires Logged(View()) && OneTimer(View())
      modifies this
      ensures View() == Step(old(View()), Reload)
    {
      if iframe.None? {
        return;
      }
      if reloadSupported && frameLoaded && contentWindow {
        asked := asked + [iframe.value];
        ClearReloadTimeout();
        reloadTimeout := nextTimer;
        armed := armed + {nextTimer};
        nextTimer := nextTimer + 1;
        return;
      }
      CreateIframe();
    }

    /** The reload timer goes off: the frame did not reload itself in time. */
    method OnTimer(timer: int)
      requires Logged(View()) && OneTimer(View()) && timer in armed
      modifies this
      ensures View() == Step(old(View()), Fire(timer))
    {
      armed := armed - {timer};
      reloadTimeout := 0;
      CreateIframe();
    }
  }
}
