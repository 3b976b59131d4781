/** No event reaches another frame than the one it was posted for, and a load delivers the last events in order. */
module FrameQueueTheorems {
  import opened Wrappers
  import opened FrameQueueSpec

  // The events that wait, as the queue holds them
  function Queue(generation: nat, events: seq<nat>): (q: seq<Pending>)
    ensures |q| == |events|
  {
    seq(|events|, i requires 0 <= i < |events| => Pending(generation, events[i]))
  }

  predicate Rising(s: seq<nat>) {
    forall i, j :: 0 <= i < j < |s| ==> s[i] < s[j]
  }

  ghost predicate QueueInv(s: State) {
    && s.pending == Queue(s.generation, Last(s.waiting, MAX_PENDING_EVENTS))
    && (s.loaded ==> s.waiting == [])
    && Rising(s.waiting)
    && (forall i :: 0 <= i < |s.waiting| ==> s.waiting[i] < |s.posted| && s.posted[s.waiting[i]] == s.generation)
  }

  ghost predicate FrameInv(s: State) {
    && (s.frame.Some? ==> s.frame.value == s.generation > 0)
    && (s.frame.None? ==> s.generation == 0 && !s.loaded)
  }

  ghost predicate TimerInv(s: State) {
    s.armed == (if s.timer.Some? then {s.timer.value} else {}) && forall t :: t in s.armed ==> t < s.timers
  }

  // Everything delivered was posted for the frame that got it; the events are in posting order, each at most once.
  ghost predicate LogInv(s: State) {
    && (forall i :: 0 <= i < |s.log| ==>
          s.log[i].event < |s.posted| && s.posted[s.log[i].event] == s.log[i].frame
            && 0 < s.log[i].frame <= s.generation)
    && (forall i, j :: 0 <= i < j < |s.log| ==> s.log[i].event < s.log[j].event)
    && (forall i, j :: 0 <= i < |s.log| && 0 <= j < |s.waiting| ==> s.log[i].event < s.waiting[j])
  }

  ghost predicate Inv(s: State) {
    QueueInv(s) && FrameInv(s) && TimerInv(s) && LogInv(s)
  }

  function Deliveries(frame: nat, events: seq<nat>): (d: seq<Delivery>)
    ensures |d| == |events|
  {
    seq(|events|, i requires 0 <= i < |events| => Delivery(frame, events[i]))
  }

  // Flushing delivers the waiting events that the queue still holds, unless the frame may not receive any.
  lemma {:induction false} SentAllIs(s: State, events: seq<nat>)
    requires s.frame == Some(s.generation)
    ensures SentAll(s, Queue(s.generation, events)) ==
            if MaySend(s) then s.(log := s.log + Deliveries(s.generation, events)) else s
  {
    if events == [] {
      assert s.log + [] == s.log;
    } else {
      var n := |events| - 1;
      SentAllIs(s, events[..n]);
      assert Queue(s.generation, events)[..n] == Queue(s.generation, events[..n]);
      assert Deliveries(s.generation, events)
        == Deliveries(s.generation, events[..n]) + [Delivery(s.generation, events[n])];
    }
  }

  lemma LastIs<T>(s: seq<T>, n: nat, i: nat)
    requires i < |Last(s, n)|
    ensures Last(s, n)[i] == s[|s| - |Last(s, n)| + i]
  {
  }

  lemma LastOfMore<T>(s: seq<T>, x: T, n: nat)
    requires n > 0
    ensures Last(Last(s, n) + [x], n) == Last(s + [x], n)
  {
  }

  lemma QueueGrows(generation: nat, events: seq<nat>, event: nat)
    ensures Last(Queue(generation, Last(events, MAX_PENDING_EVENTS)) + [Pending(generation, event)], MAX_PENDING_EVENTS)
            == Queue(generation, Last(events + [event], MAX_PENDING_EVENTS))
  {
    LastOfMore(events, event, MAX_PENDING_EVENTS);
    var (old_, new_) := (Last(events, MAX_PENDING_EVENTS), Last(events + [event], MAX_PENDING_EVENTS));
    assert Queue(generation, old_) + [Pending(generation, event)] == Queue(generation, old_ + [event]);
    assert Last(Queue(generation, old_ + [event]), MAX_PENDING_EVENTS)
           == Queue(generation, Last(old_ + [event], MAX_PENDING_EVENTS));
  }

  lemma PostKeepsInv(s: State)
    requires Inv(s)
    ensures Inv(Posted(s))
  {
    hide Last, Queue;
    if s.frame.None? || !s.loaded {
      QueueGrows(s.generation, s.waiting, |s.posted|);
    }
  }

  lemma LoadIs(s: State, g: nat)
    requires Inv(s) && s.frame == Some(g)
    ensures var t := s.(loaded := true, waiting := [], pending := []);
            Loaded(s, g) == if MaySend(s)
                            then t.(log := s.log + Deliveries(g, Last(s.waiting, MAX_PENDING_EVENTS))) else t
  {
    hide Last, Queue, SentAll;
    SentAllIs(s.(loaded := true, waiting := [], pending := []), Last(s.waiting, MAX_PENDING_EVENTS));
  }

  lemma LoadKeepsInv(s: State, g: nat)
    requires Inv(s)
    ensures Inv(Loaded(s, g))
  {
    if s.frame == Some(g) {
      LoadIs(s, g);
      var last := Last(s.waiting, MAX_PENDING_EVENTS);
      var base := |s.waiting| - |last|;
      forall i | 0 <= i < |last|
        ensures last[i] == s.waiting[base + i]
      {
        LastIs(s.waiting, MAX_PENDING_EVENTS, i);
      }
      hide Last, Loaded;
      var t := Loaded(s, g);
      assert t.pending == Queue(t.generation, Last(t.waiting, MAX_PENDING_EVENTS)) by { NothingWaits(t.generation); }
      LogGrows(s, t, last, base);
    }
  }

  lemma NothingWaits(generation: nat)
    ensures Queue(generation, Last([], MAX_PENDING_EVENTS)) == []
  {
  }

  lemma LogGrows(s: State, t: State, last: seq<nat>, base: nat)
    requires LogInv(s) && QueueInv(s) && FrameInv(s) && s.frame.Some?
    requires base + |last| == |s.waiting| && forall i :: 0 <= i < |last| ==> last[i] == s.waiting[base + i]
    requires t.posted == s.posted && t.generation == s.generation && t.waiting == []
    requires t.log == s.log || t.log == s.log + Deliveries(s.generation, last)
    ensures LogInv(t)
  {
    hide Last, Queue;
    if t.log != s.log {
      var n := |s.log|;
      forall i | n <= i < |t.log|
        ensures t.log[i] == Delivery(s.generation, s.waiting[base + i - n])
      {
      }
    }
  }

  lemma CreateKeepsInv(s: State)
    requires Inv(s)
    ensures Inv(Created(s)) && Created(s).armed == {}
  {
    hide Last, Queue;
    NothingWaits(s.generation + 1);
  }

  lemma TimeoutKeepsInv(s: State, timer: nat)
    requires Inv(s) && timer in s.armed
    ensures Inv(TimedOut(s, timer)) && TimedOut(s, timer).armed == {}
  {
    hide QueueInv, FrameInv, LogInv;
    assert s.timer == Some(timer);
    var t := s.(timer := None, armed := s.armed - {timer});
    SameQueue(s, t);
    CreateKeepsInv(t);
  }

  lemma SameQueue(s: State, t: State)
    requires Inv(s) && t.pending == s.pending && t.generation == s.generation && t.waiting == s.waiting
             && t.posted == s.posted
    requires t.log == s.log && t.frame == s.frame && (t.loaded ==> s.loaded)
    ensures QueueInv(t) && FrameInv(t) && LogInv(t)
  {
    hide Last, Queue;
  }

  lemma StepKeepsInv(s: State, e: Event)
    requires Inv(s) && CanHappen(s, e)
    ensures Inv(After(s, e))
  {
    hide QueueInv, FrameInv, LogInv, Posted, Loaded, Created;
    match e {
      case Bootstrap(sameOrigin, url, origin) =>
        var t := s.(sameOrigin := sameOrigin, url := if url == "" then "about:blank" else url,
                    origin := if sameOrigin then origin else "");
        SameQueue(s, t);
        CreateKeepsInv(t);
      case Post => PostKeepsInv(s);
      case Load(frame) => LoadKeepsInv(s, frame);
      case Reload =>
        CreateKeepsInv(s);
        if s.frame.Some? && s.reloadSupported && s.loaded {
          SameQueue(s, Reloaded(s));
        }
      case Timeout(timer) => TimeoutKeepsInv(s, timer);
      case SaysWillReload(source, origin) => SameQueue(s, After(s, e));
      case SaysReady(source, origin, supported) => SameQueue(s, After(s, e));
    }
  }

  lemma StartHasInv()
    ensures Inv(INITIAL)
  {
  }

  lemma {:induction false} RunKeepsInv(s: State, events: seq<Event>)
    requires Inv(s) && RunFrom(s, events).Some?
    ensures Inv(RunFrom(s, events).value)
  {
    hide After, CanHappen, Inv;
    if events != [] {
      RunKeepsInv(s, events[..|events| - 1]);
      StepKeepsInv(RunFrom(s, events[..|events| - 1]).value, events[|events| - 1]);
    }
  }

  // In every run: the queue has 64 events at most, all posted for the frame there is; a loaded frame has an empty
  // queue; and every event that was delivered was posted for the very frame it reached.
  lemma QueueIsForThisFrame(events: seq<Event>)
    requires Run(events).Some?
    ensures var s := Run(events).value;
            && |s.pending| <= MAX_PENDING_EVENTS
            && (s.loaded ==> s.pending == [])
            && (forall i :: 0 <= i < |s.pending| ==>
                  s.pending[i].generation == s.generation && s.pending[i].event < |s.posted|
                  && s.posted[s.pending[i].event] == s.generation)
  {
    hide RunFrom, LogInv, TimerInv;
    StartHasInv();
    RunKeepsInv(INITIAL, events);
    var s := Run(events).value;
    forall i | 0 <= i < |s.pending|
      ensures s.pending[i].event < |s.posted| && s.posted[s.pending[i].event] == s.generation
    {
      LastIs(s.waiting, MAX_PENDING_EVENTS, i);
    }
  }

  // In every run each delivered event reached the frame it was posted for, and the events arrived in posting order,
  // each of them once.
  lemma DeliveredToTheirFrame(events: seq<Event>, i: nat)
    requires Run(events).Some? && i < |Run(events).value.log|
    ensures var s := Run(events).value;
            && s.log[i].event < |s.posted| && s.posted[s.log[i].event] == s.log[i].frame
            && forall j :: i < j < |s.log| ==> s.log[i].event < s.log[j].event
  {
    hide RunFrom, QueueInv, FrameInv, TimerInv;
    StartHasInv();
    RunKeepsInv(INITIAL, events);
  }

  // What becomes of the waiting events: a new frame and a load clear them, a post to a frame that is not loaded adds
  // one, and nothing else touches them.
  lemma WaitingAfter(s: State, e: Event)
    requires Inv(s) && CanHappen(s, e)
    ensures var t := After(s, e);
            && |t.posted| == |s.posted| + (if e.Post? then 1 else 0)
            && t.waiting == if t.loaded || t.generation != s.generation then []
                            else if e.Post? then s.waiting + [|s.posted|] else s.waiting
  {
    hide SentAll, Last, Queue, LogInv, TimerInv;
    if e.Load? && s.frame == Some(e.frame) {
      FlushKeepsWaiting(s.(loaded := true, waiting := []));
    }
  }

  // A step that leaves a frame that is loaded, or new, or not loaded any more
  predicate Renews(s: State, e: Event)
    requires CanHappen(s, e)
  {
    var t := After(s, e); t.loaded || s.loaded || t.generation != s.generation
  }

  // How many events were posted by the last such step
  function PostedBefore(events: seq<Event>): nat
    requires Run(events).Some?
  {
    if events == [] then 0 else
      var front := events[..|events| - 1];
      if Renews(Run(front).value, events[|events| - 1]) then |Run(events).value.posted| else PostedBefore(front)
  }

  function Numbers(from: nat, till: nat): (s: seq<nat>)
    requires from <= till
    ensures |s| == till - from
  {
    seq(till - from, i requires 0 <= i < till - from => from + i)
  }

  // In every run the events that wait are all those posted since the frame was last not loaded, in posting order.
  lemma {:induction false} WaitingSinceUnloaded(events: seq<Event>)
    requires Run(events).Some?
    ensures var s := Run(events).value;
            PostedBefore(events) <= |s.posted| && s.waiting == Numbers(PostedBefore(events), |s.posted|)
  {
    hide After, CanHappen, Inv, Renews;
    if events != [] {
      var (front, last) := (events[..|events| - 1], events[|events| - 1]);
      WaitingSinceUnloaded(front);
      StartHasInv();
      RunKeepsInv(INITIAL, front);
      WaitingStep(Run(front).value, last, PostedBefore(front));
    }
  }

  // A load delivers, in posting order, exactly the last 64 or fewer of the events posted since the frame was last
  // not loaded, or none to a frame that may not receive any; and what was delivered before stays as it was.
  lemma LoadDeliversTheLastEvents(events: seq<Event>, g: nat)
    requires Run(events).Some? && Run(events).value.frame == Some(g)
    ensures PostedBefore(events) <= |Run(events).value.posted|
    ensures var (s, t) := (Run(events).value, Loaded(Run(events).value, g));
            var posts := Numbers(PostedBefore(events), |s.posted|);
            && t.log == s.log + (if MaySend(s) then Deliveries(g, Last(posts, MAX_PENDING_EVENTS)) else [])
            && t.loaded && t.pending == []
  {
    hide RunFrom, Loaded, PostedBefore;
    StartHasInv();
    RunKeepsInv(INITIAL, events);
    WaitingSinceUnloaded(events);
    var s := Run(events).value;
    LoadIs(s, g);
    assert s.log + [] == s.log;
  }

  lemma WaitingStep(s: State, e: Event, base: nat)
    requires Inv(s) && CanHappen(s, e) && base <= |s.posted| && s.waiting == Numbers(base, |s.posted|)
    ensures var (t, b) := (After(s, e), if Renews(s, e) then |After(s, e).posted| else base);
            b <= |t.posted| && t.waiting == Numbers(b, |t.posted|)
  {
    hide After, Queue, Last, LogInv, TimerInv, FrameInv;
    WaitingAfter(s, e);
    if s.loaded {
      LoadedWaits(s, e);
    }
    assert Numbers(|After(s, e).posted|, |After(s, e).posted|) == [];
    assert Numbers(base, |s.posted| + 1) == Numbers(base, |s.posted|) + [|s.posted|];
  }

  // A loaded frame has nothing waiting, so a step that leaves it not loaded starts from nothing.
  lemma LoadedWaits(s: State, e: Event)
    requires Inv(s) && CanHappen(s, e) && s.loaded
    ensures s.waiting == [] && (After(s, e).generation == s.generation && e.Post? ==> After(s, e).loaded)
  {
    hide SentAll, Last, Queue, LogInv, TimerInv;
  }

  lemma {:induction false} SentAllKeepsWaiting(s: State, pending: seq<Pending>)
    ensures var t := SentAll(s, pending);
            t.waiting == s.waiting && t.posted == s.posted && t.generation == s.generation && t.loaded == s.loaded
  {
    if pending != [] {
      SentAllKeepsWaiting(s, pending[..|pending| - 1]);
    }
  }

  lemma FlushKeepsWaiting(s: State)
    ensures var t := Flushed(s);
            t.waiting == s.waiting && t.posted == s.posted && t.generation == s.generation && t.loaded == s.loaded
  {
    hide SentAll;
    SentAllKeepsWaiting(s.(pending := []), s.pending);
  }

  // No fallback reload fires after the frame said that it will reload, or after a new frame, until a reload is asked.
  predicate Disarms(s: State, e: Event) {
    || e.Bootstrap? || e.Timeout?
    || (e.SaysWillReload? && IsFromFrame(s, e.source, e.origin))
    || (e.Reload? && s.frame.Some? && !(s.reloadSupported && s.loaded))
  }

  lemma DisarmingDisarms(s: State, e: Event)
    requires Inv(s) && CanHappen(s, e) && Disarms(s, e)
    ensures After(s, e).armed == {}
  {
    hide QueueInv, FrameInv, LogInv, Last, Queue, SentAll;
  }

  lemma {:induction false} NoTimerUntilReload(s: State, events: seq<Event>)
    requires Inv(s) && s.armed == {} && RunFrom(s, events).Some? && forall e :: e in events ==> !e.Reload?
    ensures RunFrom(s, events).value.armed == {} && forall e :: e in events ==> !e.Timeout?
  {
    hide Inv, After;
    if events != [] {
      var (front, last) := (events[..|events| - 1], events[|events| - 1]);
      assert events == front + [last];
      NoTimerUntilReload(s, front);
      RunKeepsInv(s, front);
      StaysUnarmed(RunFrom(s, front).value, last);
    }
  }

  lemma StaysUnarmed(s: State, e: Event)
    requires Inv(s) && s.armed == {} && CanHappen(s, e) && !e.Reload?
    ensures After(s, e).armed == {}
  {
    hide QueueInv, FrameInv, LogInv, Last, Queue, SentAll;
    if e.Load? {
      SentAllKeepsTimers(s.(loaded := true, waiting := [], pending := []), s.pending);
    }
  }

  lemma {:induction false} SentAllKeepsTimers(s: State, pending: seq<Pending>)
    ensures SentAll(s, pending).armed == s.armed
  {
    if pending != [] {
      SentAllKeepsTimers(s, pending[..|pending| - 1]);
    }
  }

  lemma NoFallbackAfterDisarming(before: seq<Event>, e: Event, after: seq<Event>)
    requires Run(before).Some? && CanHappen(Run(before).value, e) && Disarms(Run(before).value, e)
    requires RunFrom(After(Run(before).value, e), after).Some? && forall e :: e in after ==> !e.Reload?
    ensures forall e :: e in after ==> !e.Timeout?
  {
    hide RunFrom, After, Inv, Disarms;
    StartHasInv();
    RunKeepsInv(INITIAL, before);
    var s := Run(before).value;
    DisarmingDisarms(s, e);
    StepKeepsInv(s, e);
    NoTimerUntilReload(After(s, e), after);
  }
}
