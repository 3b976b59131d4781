/** The events for a web app's frame: sent to a loaded frame, queued for one that loads. */
module FrameQueueSpec {
  import opened Wrappers

  const MAX_PENDING_EVENTS: nat := 64

  // An event by its number among those posted, with the generation of the frame it was posted for
  datatype Pending = Pending(generation: nat, event: nat)

  // An event by its number, and the generation of the frame that received it
  datatype Delivery = Delivery(frame: nat, event: nat)

  // A frame is known by the generation it was created as. The surroundings know the timers that are set, the
  // generation at which each event was posted, what was delivered, and the events posted since the frame was loaded.
  datatype State = State(
    frame: Option<nat>, loaded: bool, generation: nat, pending: seq<Pending>,
    reloadSupported: bool, timer: Option<nat>, url: string, origin: string, sameOrigin: bool,
    armed: set<nat>, timers: nat, posted: seq<nat>, log: seq<Delivery>, waiting: seq<nat>)

  const INITIAL := State(None, false, 0, [], false, None, "about:blank", "", false, {}, 0, [], [], [])

  function Last<T>(s: seq<T>, n: nat): (t: seq<T>)
    ensures |t| <= n
  {
    if |s| > n then s[|s| - n..] else s
  }

  // sendToFrame: a frame of the same origin that has none receives nothing.
  predicate MaySend(s: State) {
    s.frame.Some? && (s.sameOrigin ==> s.origin != "")
  }

  function Sent(s: State, event: nat, generation: nat): State {
    if MaySend(s) && generation == s.generation then s.(log := s.log + [Delivery(s.frame.value, event)]) else s
  }

  // postToFrame
  function Posted(s: State): State {
    var event := |s.posted|;
    var t := s.(posted := s.posted + [s.generation]);
    if s.frame.None? || !s.loaded then
      t.(pending := Last(s.pending + [Pending(s.generation, event)], MAX_PENDING_EVENTS),
         waiting := s.waiting + [event])
    else Sent(t, event, s.generation)
  }

  // flushPendingEvents
  function SentAll(s: State, pending: seq<Pending>): State {
    if pending == [] then s else
      var (before, p) := (SentAll(s, pending[..|pending| - 1]), pending[|pending| - 1]);
      if p.generation == s.generation then Sent(before, p.event, p.generation) else before
  }

  function Flushed(s: State): State {
    SentAll(s.(pending := []), s.pending)
  }

  // The load handler of the frame created as generation g
  function Loaded(s: State, g: nat): State {
    if s.frame != Some(g) || g != s.generation then s else Flushed(s.(loaded := true, waiting := []))
  }

  function Unarmed(s: State): State {
    if s.timer.Some? then s.(timer := None, armed := s.armed - {s.timer.value}) else s
  }

  // createIframe
  function Created(s: State): State {
    Unarmed(s).(generation := s.generation + 1, pending := [], waiting := [], loaded := false, reloadSupported := false,
                frame := Some(s.generation + 1))
  }

  // reloadFrame: a frame that can reload itself is asked to, and is created again if it does not say that it will.
  function Reloaded(s: State): State {
    if s.frame.None? then s
    else if s.reloadSupported && s.loaded then
      var t := Unarmed(s);
      t.(timer := Some(t.timers), armed := t.armed + {t.timers}, timers := t.timers + 1)
    else Created(s)
  }

  function TimedOut(s: State, timer: nat): State {
    Created(s.(timer := None, armed := s.armed - {timer}))
  }

  // The message handler, for the two messages that the shell keeps to itself
  predicate IsFromFrame(s: State, source: nat, origin: string) {
    s.frame == Some(source) && (s.sameOrigin ==> s.origin != "" && origin == s.origin)
  }

  function WillReload(s: State, source: nat, origin: string): State {
    if !IsFromFrame(s, source, origin) then s else Unarmed(s).(loaded := false)
  }

  function Ready(s: State, source: nat, origin: string, supported: bool): State {
    if !IsFromFrame(s, source, origin) then s else s.(reloadSupported := supported)
  }

  // bootstrap; the origin of a url is known outside.
  function Bootstrapped(s: State, sameOrigin: bool, url: string, origin: string): State {
    Created(s.(sameOrigin := sameOrigin, url := if url == "" then "about:blank" else url,
               origin := if sameOrigin then origin else ""))
  }

  datatype Event =
    | Bootstrap(sameOrigin: bool, url: string, origin: string)
    | Post
    | Load(frame: nat)
    | Reload
    | Timeout(timer: nat)
    | SaysWillReload(source: nat, origin: string)
    | SaysReady(source: nat, origin: string, supported: bool)

  predicate CanHappen(s: State, e: Event) {
    match e
    case Load(frame) => 0 < frame <= s.generation
    case Timeout(timer) => timer in s.armed
    case _ => true
  }

  function After(s: State, e: Event): State {
    match e
    case Bootstrap(sameOrigin, url, origin) => Bootstrapped(s, sameOrigin, url, origin)
    case Post => Posted(s)
    case Load(frame) => Loaded(s, frame)
    case Reload => Reloaded(s)
    case Timeout(timer) => TimedOut(s, timer)
    case SaysWillReload(source, origin) => WillReload(s, source, origin)
    case SaysReady(source, origin, supported) => Ready(s, source, origin, supported)
  }

  function RunFrom(s: State, events: seq<Event>): Option<State> {
    if events == [] then Some(s) else
      var t :- RunFrom(s, events[..|events| - 1]);
      var e := events[|events| - 1];
      if CanHappen(t, e) then Some(After(t, e)) else None
  }

  function Run(events: seq<Event>): Option<State> {
    RunFrom(INITIAL, events)
  }
}
