/** The queue of events for the frame, as the page's handlers change it in place. */
module FrameQueueCode {
  import opened Wrappers
  import opened FrameQueueSpec

  class Shell {
    var frame: Option<nat>
    var loaded: bool
    var generation: nat
    var pending: seq<Pending>
    var reloadSupported: bool
    var timer: Option<nat>
    var url: string
    var origin: string
    var sameOrigin: bool
    var armed: set<nat>
    var timers: nat
    var posted: seq<nat>
    var log: seq<Delivery>
    var waiting: seq<nat>

    function Value(): State
      reads this
    {
      State(frame, loaded, generation, pending, reloadSupported, timer, url, origin, sameOrigin, armed, timers,
            posted, log, waiting)
    }

    constructor ()
      ensures Value() == INITIAL
    {
      frame, loaded, generation, pending, reloadSupported, timer := None, false, 0, [], false, None;
      url, origin, sameOrigin := "about:blank", "", false;
      armed, timers, posted, log, waiting := {}, 0, [], [], [];
    }

    method SendToFrame(event: nat, eventGeneration: nat)
      modifies `log
      ensures Value() == Sent(old(Value()), event, eventGeneration)
    {
      if frame.None? || eventGeneration != generation {
        return;
      }
      if sameOrigin && origin == "" {
        return;
      }
      log := log + [Delivery(frame.value, event)];
    }

    // Events beyond the bound leave the queue from its front.
    method TrimPending()
      modifies `pending
      ensures pending == Last(old(pending), MAX_PENDING_EVENTS)
    {
      ghost var all := pending;
      while |pending| > MAX_PENDING_EVENTS
        invariant |pending| <= |all| && pending == all[|all| - |pending|..]
        invariant |pending| >= MAX_PENDING_EVENTS || pending == all
      {
        pending := pending[1..];
      }
    }

    method PostToFrame()
      modifies this
      ensures Value() == Posted(old(Value()))
    {
      hide Sent;
      var event := |posted|;
      posted := posted + [generation];
      if frame.None? || !loaded {
        waiting := waiting + [event];
        pending := pending + [Pending(generation, event)];
        TrimPending();
        return;
      }
      SendToFrame(event, generation);
    }

    method FlushPendingEvents()
      modifies this
      ensures Value() == Flushed(old(Value()))
    {
      hide Sent;
      var events := pending;
      pending := [];
      ghost var start := Value();
      for i := 0 to |events|
        invariant Value() == SentAll(start, events[..i]) && generation == start.generation
      {
        assert events[..i + 1][..i] == events[..i];
        if events[i].generation == generation {
          SendToFrame(events[i].event, events[i].generation);
        }
      }
      assert events[..|events|] == events;
    }

    method FrameLoad(g: nat)
      modifies this
      ensures Value() == Loaded(old(Value()), g)
    {
      hide Flushed;
      if frame != Some(g) || g != generation {
        return;
      }
      loaded := true;
      waiting := [];
      FlushPendingEvents();
    }

    method ClearReloadTimeout()
      modifies `timer, `armed
      ensures Value() == Unarmed(old(Value()))
    {
      if timer.Some? {
        armed := armed - {timer.value};
        timer := None;
      }
    }

    method CreateIframe()
      modifies this
      ensures Value() == Created(old(Value()))
    {
      ClearReloadTimeout();
      generation := generation + 1;
      pending, waiting := [], [];
      loaded := false;
      reloadSupported := false;
      frame := Some(generation);
    }

    method ReloadFrame()
      modifies this
      ensures Value() == Reloaded(old(Value()))
    {
      hide Created;
      if frame.None? {
        return;
      }
      if reloadSupported && loaded {
        ClearReloadTimeout();
        timer := Some(timers);
        armed := armed + {timers};
        timers := timers + 1;
        return;
      }
      CreateIframe();
    }

    method ReloadTimedOut(t: nat)
      modifies this
      ensures Value() == TimedOut(old(Value()), t)
    {
      hide Created;
      armed := armed - {t};
      timer := None;
      CreateIframe();
    }

    method MessageWillReload(source: nat, from: string)
      modifies this
      ensures Value() == WillReload(old(Value()), source, from)
    {
      if frame.None? || source != frame.value {
        return;
      }
      if sameOrigin && (origin == "" || from != origin) {
        return;
      }
      ClearReloadTimeout();
      loaded := false;
    }

    method MessageReady(source: nat, from: string, supported: bool)
      modifies this
      ensures Value() == Ready(old(Value()), source, from, supported)
    {
      if frame.None? || source != frame.value {
        return;
      }
      if sameOrigin && (origin == "" || from != origin) {
        return;
      }
      reloadSupported := supported;
    }

    method BootstrapFrame(same: bool, newUrl: string, urlOrigin: string)
      modifies this
      ensures Value() == Bootstrapped(old(Value()), same, newUrl, urlOrigin)
    {
      hide Created;
      sameOrigin := same;
      url := if newUrl == "" then "about:blank" else newUrl;
      origin := if same then urlOrigin else "";
      CreateIframe();
    }
  }
}
