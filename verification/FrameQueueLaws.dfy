/** What becomes of each posted event, and what the shell does to its frame, told from what happened before. */
module FrameQueueLaws {
  import opened Wrappers
  import opened FrameQueueSpec
  import opened FrameQueueTheorems

  // The page that the shell was started with last
  function Boot(events: seq<Event>): (boot: Option<Event>)
    ensures boot.Some? ==> boot.value.Bootstrap?
  {
    if events == [] then None
    else if events[|events| - 1].Bootstrap? then Some(events[|events| - 1])
    else Boot(events[..|events| - 1])
  }

  // A page of the shell's own origin needs to have one.
  predicate MayReceive(boot: Option<Event>) {
    boot.Some? && boot.value.Bootstrap? && (boot.value.sameOrigin ==> boot.value.origin != "")
  }

  predicate IsBooted(s: State, boot: Option<Event>) {
    match boot
    case None => s.frame.None? && s.generation == 0 && s.timer.None? && s.armed == {}
    case Some(e) =>
      && e.Bootstrap? && s.frame == Some(s.generation) && s.generation > 0
      && s.sameOrigin == e.sameOrigin && s.origin == (if e.sameOrigin then e.origin else "")
      && s.url == (if e.url == "" then "about:blank" else e.url)
  }

  lemma {:induction false} SentAllStays(s: State, pending: seq<Pending>)
    ensures SentAll(s, pending) == s.(log := SentAll(s, pending).log)
  {
    if pending != [] {
      SentAllStays(s, pending[..|pending| - 1]);
    }
  }

  lemma FlushStays(s: State)
    ensures Flushed(s) == s.(log := Flushed(s).log, pending := [])
  {
    hide SentAll;
    SentAllStays(s.(pending := []), s.pending);
  }

  // Flushing sends the queued events of this frame, and of no other.
  function OfFrame(generation: nat, pending: seq<Pending>): seq<Delivery> {
    if pending == [] then [] else
      var (front, last) := (pending[..|pending| - 1], pending[|pending| - 1]);
      OfFrame(generation, front) + if last.generation == generation then [Delivery(generation, last.event)] else []
  }

  lemma {:induction false} SentAllAre(s: State, pending: seq<Pending>)
    requires s.frame == Some(s.generation)
    ensures SentAll(s, pending).log == s.log + if MaySend(s) then OfFrame(s.generation, pending) else []
  {
    if pending == [] {
      assert s.log + [] == s.log;
    } else {
      var front := pending[..|pending| - 1];
      SentAllAre(s, front);
      SentAllStays(s, front);
    }
  }

  lemma StepIsBooted(s: State, e: Event, boot: Option<Event>)
    requires IsBooted(s, boot) && CanHappen(s, e)
    ensures IsBooted(After(s, e), if e.Bootstrap? then Some(e) else boot)
  {
    hide Flushed, Last;
    if e.Load? {
      FlushStays(s.(loaded := true, waiting := []));
    }
  }

  // In every run the frame is the one created last, for the last page.
  lemma {:induction false} FrameIsBooted(events: seq<Event>)
    requires Run(events).Some?
    ensures IsBooted(Run(events).value, Boot(events))
  {
    hide After, CanHappen, IsBooted;
    if events == [] {
      NothingBooted();
    } else {
      FrameIsBooted(events[..|events| - 1]);
      StepIsBooted(Run(events[..|events| - 1]).value, events[|events| - 1], Boot(events[..|events| - 1]));
    }
  }

  lemma NothingBooted()
    ensures IsBooted(INITIAL, None)
  {
  }

  lemma BootedMaySend(s: State, boot: Option<Event>)
    requires IsBooted(s, boot)
    ensures MaySend(s) <==> MayReceive(boot)
  {
  }

  // An event that is posted to a loaded frame goes to it at once, if it may receive any; otherwise it is queued behind
  // the others, of which the first goes if there are 64 already.
  lemma PostIs(events: seq<Event>)
    requires Run(events).Some?
    ensures var s := Run(events).value;
            var (t, event) := (After(s, Post), |s.posted|);
            && t.posted == s.posted + [s.generation]
            && (s.loaded ==>
                  && t.log == s.log + (if MayReceive(Boot(events)) then [Delivery(s.generation, event)] else [])
                  && t.pending == s.pending)
            && (!s.loaded ==>
                  && t.log == s.log
                  && t.pending == (if |s.pending| == 64 then s.pending[1..] else s.pending)
                                  + [Pending(s.generation, event)])
            && t.loaded == s.loaded && t.generation == s.generation && t.frame == s.frame
  {
    hide RunFrom, IsBooted;
    FrameIsBooted(events);
    var s := Run(events).value;
    BootedMaySend(s, Boot(events));
    StartHasInv();
    RunKeepsInv(INITIAL, events);
    assert s.log + [] == s.log;
    if !s.loaded && |s.pending| == 64 {
      assert (s.pending + [Pending(s.generation, |s.posted|)])[1..]
             == s.pending[1..] + [Pending(s.generation, |s.posted|)];
    }
  }

  // The page in the frame can tell the shell something only from the origin that it was started with.
  predicate IsHeard(s: State, boot: Option<Event>, source: nat, origin: string) {
    && boot.Some? && boot.value.Bootstrap? && source == s.generation
    && (boot.value.sameOrigin ==> boot.value.origin != "" && origin == boot.value.origin)
  }

  lemma HeardIff(s: State, boot: Option<Event>, source: nat, origin: string)
    requires IsBooted(s, boot)
    ensures IsFromFrame(s, source, origin) <==> IsHeard(s, boot, source, origin)
  {
  }

  // Whether the page said last, since its frame was created, that it can reload itself
  function SaysItReloads(events: seq<Event>): bool
    requires Run(events).Some?
  {
    events != [] &&
      var (front, last) := (events[..|events| - 1], events[|events| - 1]);
      if Run(events).value.generation != Run(front).value.generation then false
      else if last.SaysReady? && IsHeard(Run(front).value, Boot(front), last.source, last.origin) then last.supported
      else SaysItReloads(front)
  }

  // Whether the frame was loaded since it was created, and did not say after that that it will reload
  function IsLoaded(events: seq<Event>): bool
    requires Run(events).Some?
  {
    events != [] &&
      var (front, last) := (events[..|events| - 1], events[|events| - 1]);
      if Run(events).value.generation != Run(front).value.generation then false
      else if last.Load? && last.frame == Run(front).value.generation then true
      else if last.SaysWillReload? && IsHeard(Run(front).value, Boot(front), last.source, last.origin) then false
      else IsLoaded(front)
  }

  lemma StepTells(s: State, e: Event, boot: Option<Event>)
    requires IsBooted(s, boot) && CanHappen(s, e)
    ensures var t := After(s, e);
            && t.reloadSupported ==
                 (if t.generation != s.generation then false
                  else if e.SaysReady? && IsHeard(s, boot, e.source, e.origin) then e.supported
                  else s.reloadSupported)
            && t.loaded ==
                 (if t.generation != s.generation then false
                  else if e.Load? && e.frame == s.generation then true
                  else if e.SaysWillReload? && IsHeard(s, boot, e.source, e.origin) then false
                  else s.loaded)
  {
    hide Flushed, Last;
    if e.Load? {
      FlushStays(s.(loaded := true, waiting := []));
    }
  }

  lemma {:induction false} StateIsTold(events: seq<Event>)
    requires Run(events).Some?
    ensures var s := Run(events).value;
            s.reloadSupported == SaysItReloads(events) && s.loaded == IsLoaded(events)
  {
    hide After, CanHappen, IsBooted, IsHeard;
    if events != [] {
      var (front, last) := (events[..|events| - 1], events[|events| - 1]);
      StateIsTold(front);
      FrameIsBooted(front);
      StepTells(Run(front).value, last, Boot(front));
    }
  }

  // A frame that is loaded and said that it can is asked to reload itself, and a fallback is set; any other frame is
  // created again. A fallback that fires creates it again too.
  predicate IsNewFrame(s: State, t: State) {
    && t.generation == s.generation + 1 && t.frame == Some(t.generation) && !t.loaded && t.pending == []
    && t.armed == {} && t.log == s.log && t.url == s.url && t.origin == s.origin && t.sameOrigin == s.sameOrigin
  }

  lemma ReloadIs(events: seq<Event>)
    requires Run(events).Some?
    ensures var s := Run(events).value;
            var t := After(s, Reload);
            if Boot(events).None? then t == s
            else if IsLoaded(events) && SaysItReloads(events) then
              t == s.(timer := Some(s.timers), armed := {s.timers}, timers := s.timers + 1)
            else IsNewFrame(s, t)
  {
    hide RunFrom, QueueInv, LogInv;
    FrameIsBooted(events);
    StateIsTold(events);
    StartHasInv();
    RunKeepsInv(INITIAL, events);
  }

  lemma FallbackIs(events: seq<Event>, timer: nat)
    requires Run(events).Some? && CanHappen(Run(events).value, Timeout(timer))
    ensures IsNewFrame(Run(events).value, After(Run(events).value, Timeout(timer)))
  {
    hide RunFrom, QueueInv, LogInv;
    StartHasInv();
    RunKeepsInv(INITIAL, events);
  }

  // What the page says is heard from its own frame and origin only: that it will reload takes the fallback away, and
  // events wait again.
  lemma SaidIs(events: seq<Event>, source: nat, origin: string, supported: bool)
    requires Run(events).Some?
    ensures var s := Run(events).value;
            var (w, r) := (After(s, SaysWillReload(source, origin)), After(s, SaysReady(source, origin, supported)));
            if IsHeard(s, Boot(events), source, origin) then
              w == s.(loaded := false, timer := None, armed := {}) && r == s.(reloadSupported := supported)
            else w == s && r == s
  {
    hide RunFrom, QueueInv, LogInv, IsBooted, IsHeard, IsFromFrame;
    FrameIsBooted(events);
    StartHasInv();
    RunKeepsInv(INITIAL, events);
    HeardIff(Run(events).value, Boot(events), source, origin);
  }

  // An event is trimmed when the 64th one after it is posted before the frame is loaded.
  ghost predicate IsTrimmed(events: seq<Event>, event: nat)
    requires Run(events).Some?
  {
    events != [] &&
      var (front, last) := (events[..|events| - 1], events[|events| - 1]);
      || IsTrimmed(front, event)
      || (last.Post? && |Run(front).value.posted| == event + 64 && PostedBefore(front) <= event)
  }

  predicate IsDelivered(s: State, event: nat) {
    Delivery(s.generation, event) in s.log
  }

  predicate IsQueued(s: State, event: nat) {
    Pending(s.generation, event) in s.pending
  }

  lemma QueuedIff(s: State, base: nat, event: nat)
    requires Inv(s) && base <= |s.posted| && s.waiting == Numbers(base, |s.posted|)
    ensures IsQueued(s, event) <==> base <= event < |s.posted| <= event + 64
  {
    hide LogInv, TimerInv, FrameInv;
    var last := Last(s.waiting, MAX_PENDING_EVENTS);
    var start := |s.posted| - |last|;
    assert s.pending == Queue(s.generation, last);
    forall i | 0 <= i < |last|
      ensures last[i] == start + i
    {
      LastIs(s.waiting, MAX_PENDING_EVENTS, i);
    }
    if start <= event < |s.posted| {
      assert s.pending[event - start] == Pending(s.generation, event);
    }
  }

  // While events wait, none of them is delivered, and those of which 64 newer ones wait are trimmed; of the earlier
  // ones for this frame all but the trimmed are delivered.
  ghost predicate IsAccounted(events: seq<Event>, event: nat)
    requires Run(events).Some?
  {
    var s := Run(events).value;
    && (PostedBefore(events) <= event ==>
          !IsDelivered(s, event) && (IsTrimmed(events, event) <==> event + 64 < |s.posted|))
    && (event < PostedBefore(events) && event < |s.posted| && s.posted[event] == s.generation && MaySend(s) ==>
          (IsDelivered(s, event) <==> !IsTrimmed(events, event)))
  }

  // What a step of one frame delivers
  lemma StepDelivers(s: State, e: Event, base: nat, event: nat)
    requires Inv(s) && CanHappen(s, e) && base <= |s.posted| && s.waiting == Numbers(base, |s.posted|)
    requires After(s, e).generation == s.generation
    ensures var t := After(s, e);
            && (MaySend(t) <==> MaySend(s))
            && (IsDelivered(t, event) <==>
                  || IsDelivered(s, event)
                  || (e.Post? && s.loaded && MaySend(s) && event == |s.posted|)
                  || (e.Load? && s.frame == Some(e.frame) && MaySend(s) && base <= event < |s.posted| <= event + 64))
  {
    hide TimerInv, QueueInv, LogInv, Flushed, Last;
    match e {
      case Load(frame) =>
        if s.frame == Some(frame) {
          LoadIs(s, frame);
          LastNumbers(s, base, event);
        }
      case _ =>
    }
  }

  lemma LastNumbers(s: State, base: nat, event: nat)
    requires base <= |s.posted| && s.waiting == Numbers(base, |s.posted|)
    ensures Delivery(s.generation, event) in Deliveries(s.generation, Last(s.waiting, MAX_PENDING_EVENTS)) <==>
            base <= event < |s.posted| <= event + 64
  {
    var last := Last(s.waiting, MAX_PENDING_EVENTS);
    var start := |s.posted| - |last|;
    if start <= event < |s.posted| {
      assert Deliveries(s.generation, last)[event - start] == Delivery(s.generation, event);
    }
  }

  // No event was posted for a frame that is still to come.
  ghost predicate IsPast(s: State) {
    forall i :: 0 <= i < |s.posted| ==> s.posted[i] <= s.generation
  }

  lemma {:induction false} PostedIsPast(events: seq<Event>)
    requires Run(events).Some?
    ensures IsPast(Run(events).value)
  {
    hide After, CanHappen, Inv;
    if events != [] {
      var front := events[..|events| - 1];
      PostedIsPast(front);
      StartHasInv();
      RunKeepsInv(INITIAL, front);
      PastStays(Run(front).value, events[|events| - 1]);
    }
  }

  lemma PastStays(s: State, e: Event)
    requires Inv(s) && CanHappen(s, e) && IsPast(s)
    ensures IsPast(After(s, e)) && After(s, e).generation >= s.generation
    ensures e.Post? ==> After(s, e).posted == s.posted + [s.generation]
    ensures !e.Post? ==> After(s, e).posted == s.posted
  {
    hide Flushed, Last, Inv;
    if e.Load? {
      FlushStays(s.(loaded := true, waiting := []));
    }
  }

  // When a step starts a new count of waiting events
  lemma RenewsIff(s: State, e: Event)
    requires CanHappen(s, e)
    ensures Renews(s, e) <==>
            || s.loaded || After(s, e).generation != s.generation
            || (e.Load? && s.frame == Some(e.frame) && e.frame == s.generation)
  {
    hide Flushed, Last;
    if e.Load? {
      FlushStays(s.(loaded := true, waiting := []));
    }
  }

  lemma NothingDelivered(s: State, event: nat)
    requires Inv(s) && event >= |s.posted|
    ensures !IsDelivered(s, event)
  {
  }

  lemma NewFrameDeliversNothing(s: State, e: Event, event: nat)
    requires Inv(s) && IsPast(s) && CanHappen(s, e) && After(s, e).generation != s.generation
    ensures !IsDelivered(After(s, e), event) && |After(s, e).posted| == |s.posted|
    ensures event < |s.posted| ==> s.posted[event] != After(s, e).generation
  {
    hide Flushed, Last, QueueInv, TimerInv;
    if e.Load? {
      FlushStays(s.(loaded := true, waiting := []));
    }
  }

  lemma StepAccounts(front: seq<Event>, e: Event, event: nat, events: seq<Event>)
    requires events == front + [e] && Run(front).Some? && Run(events).Some?
    requires IsAccounted(front, event)
    ensures IsAccounted(events, event)
  {
    hide After, CanHappen, Renews, Inv, IsDelivered, MaySend, RunFrom;
    var s := Run(front).value;
    assert CanHappen(s, e) && Run(events) == Some(After(s, e)) by { RunMore(front, e, events); }
    var t := After(s, e);
    StartHasInv();
    RunKeepsInv(INITIAL, front);
    StepKeepsInv(s, e);
    PostedIsPast(front);
    PastStays(s, e);
    WaitingSinceUnloaded(front);
    RenewsIff(s, e);
    assert events[..|events| - 1] == front;
    assert s.loaded ==> PostedBefore(front) == |s.posted| by { LoadedWaitsForNothing(s, PostedBefore(front)); }
    assert s.frame.Some? ==> s.frame.value == s.generation by { FrameIsThere(s); }
    if event >= |t.posted| {
      NothingDelivered(t, event);
    }
    if t.generation != s.generation {
      NewFrameDeliversNothing(s, e, event);
    } else {
      StepDelivers(s, e, PostedBefore(front), event);
    }
  }

  lemma RunMore(front: seq<Event>, e: Event, events: seq<Event>)
    requires events == front + [e] && Run(front).Some? && Run(events).Some?
    ensures CanHappen(Run(front).value, e) && Run(events) == Some(After(Run(front).value, e))
  {
    assert events[..|events| - 1] == front;
  }

  lemma LoadedWaitsForNothing(s: State, base: nat)
    requires Inv(s) && base <= |s.posted| && s.waiting == Numbers(base, |s.posted|)
    ensures s.loaded ==> base == |s.posted|
  {
  }

  lemma FrameIsThere(s: State)
    requires Inv(s)
    ensures s.frame.Some? ==> s.frame.value == s.generation
  {
  }

  lemma {:induction false} EventsAreAccounted(events: seq<Event>, event: nat)
    requires Run(events).Some?
    ensures IsAccounted(events, event)
  {
    hide After, CanHappen, IsAccounted;
    if events == [] {
      assert IsAccounted([], event) by { NothingPosted(event); }
    } else {
      var (front, last) := (events[..|events| - 1], events[|events| - 1]);
      EventsAreAccounted(front, event);
      assert events == front + [last];
      StepAccounts(front, last, event, events);
    }
  }

  lemma NothingPosted(event: nat)
    ensures IsAccounted([], event)
  {
  }

  // In every run each event that was posted for the frame there is has just one fate, if that frame may receive events:
  // it was delivered, or it is in the queue, or it was trimmed.
  lemma EachEventHasItsFate(events: seq<Event>, event: nat)
    requires Run(events).Some? && event < |Run(events).value.posted|
    requires Run(events).value.posted[event] == Run(events).value.generation && MayReceive(Boot(events))
    ensures var s := Run(events).value;
            && (IsDelivered(s, event) <==> !IsQueued(s, event) && !IsTrimmed(events, event))
            && !(IsQueued(s, event) && IsTrimmed(events, event))
  {
    hide RunFrom, IsBooted, IsTrimmed, PostedBefore;
    EventsAreAccounted(events, event);
    WaitingSinceUnloaded(events);
    StartHasInv();
    RunKeepsInv(INITIAL, events);
    QueuedIff(Run(events).value, PostedBefore(events), event);
    FrameIsBooted(events);
    BootedMaySend(Run(events).value, Boot(events));
  }
}
