/** The media-session half of MainActivity: the access-resolver chain, the
    active-controller tracker, the change notifier and the media event
    stream handler, as a state machine over atomic events. */
module MediaBridge {
  import opened Wrappers
  import opened Sessions
  import ListenerService
  import Snapshot

  /** What the bridge reads from the system at one moment: the session
      manager's answers, the listener service's static slot, and the live
      state of the sessions. */
  datatype Device = Device(registry: Registry, listener: ListenerService.Slot, live: Live)

  // -----------------------------------------------------------------------
  // Access resolver

  /** The first step: the listener service's answer when it reports itself
      enabled, and null otherwise. */
  function ListenerStep(d: Device): (r: Option<seq<Controller>>)
    ensures r.Some? ==> ListenerService.IsServiceEnabled(d.listener)
    ensures ListenerService.IsServiceEnabled(d.listener) ==>
              r == ListenerService.GetActiveMediaSessions(ListenerService.GetInstance(d.listener).value, d.registry)
  {
    if ListenerService.IsServiceEnabled(d.listener) then
      ListenerService.GetActiveMediaSessions(ListenerService.GetInstance(d.listener).value, d.registry)
    else None
  }

  /** Reference fallback chain: the first step that produced a list (even
      an empty one), and the empty list when every step failed. */
  function FirstAvailable(steps: seq<Option<seq<Controller>>>): seq<Controller> {
    if |steps| == 0 then []
    else match steps[0]
      case Some(cs) => cs
      case None => FirstAvailable(steps[1..])
  }

  /** The reference chain yields the list of the first step that produced
      one, every earlier step having failed, or the empty list when all
      steps failed. */
  lemma {:induction false} FirstAvailableSpec(steps: seq<Option<seq<Controller>>>)
    ensures (forall k :: 0 <= k < |steps| ==> steps[k].None?) ==> FirstAvailable(steps) == []
    ensures (exists k :: 0 <= k < |steps| && steps[k].Some?) ==>
              exists k :: 0 <= k < |steps| && steps[k] == Some(FirstAvailable(steps))
                          && forall j :: 0 <= j < k ==> steps[j].None?
  {
    if |steps| > 0 && steps[0].None? {
      var tail := steps[1..];
      FirstAvailableSpec(tail);
      assert forall k :: 1 <= k < |steps| ==> steps[k] == tail[k - 1];
      if exists k :: 0 <= k < |steps| && steps[k].Some? {
        var k :| 1 <= k < |steps| && steps[k].Some?;
        assert tail[k - 1].Some?;
        var k' :| 0 <= k' < |tail| && tail[k'] == Some(FirstAvailable(tail)) && forall j :: 0 <= j < k' ==> tail[j].None?;
        assert steps[k' + 1] == Some(FirstAvailable(steps));
      }
    }
  }

  /** The chain of updateActiveMediaController: the listener service's
      non-null answer (an empty list included), else the query scoped to
      the listener component, else the unscoped query on denial, else the
      empty list on a second denial. Nothing is thrown to the caller. */
  function ResolveControllers(d: Device): (r: seq<Controller>)
    ensures ListenerStep(d).Some? ==> r == ListenerStep(d).value
    ensures ListenerStep(d).None? && d.registry.scoped.Success? ==> r == d.registry.scoped.value
    ensures ListenerStep(d).None? && d.registry.scoped.Failure? && d.registry.unscoped.Success? ==>
              r == d.registry.unscoped.value
    ensures ListenerStep(d).None? && d.registry.scoped.Failure? && d.registry.unscoped.Failure? ==> r == []
  {
    match ListenerStep(d)
    case Some(controllers) => controllers
    case None =>
      match d.registry.scoped
      case Success(controllers) => controllers
      case Failure(_) =>
        match d.registry.unscoped
        case Success(controllers) => controllers
        case Failure(_) => []
  }

  /** The source's nested fallbacks are the ordered chain of three steps. */
  lemma ResolveIsFirstAvailable(d: Device)
    ensures ResolveControllers(d) ==
              FirstAvailable([ListenerStep(d), d.registry.scoped.ToOption(), d.registry.unscoped.ToOption()])
  {
    var steps := [ListenerStep(d), d.registry.scoped.ToOption(), d.registry.unscoped.ToOption()];
    assert steps[1..] == [d.registry.scoped.ToOption(), d.registry.unscoped.ToOption()];
    assert steps[1..][1..] == [d.registry.unscoped.ToOption()];
    assert steps[1..][1..][1..] == [];
    if ListenerStep(d).None? {
      assert FirstAvailable(steps) == FirstAvailable(steps[1..]);
      if d.registry.scoped.Failure? {
        assert FirstAvailable(steps[1..]) == FirstAvailable(steps[1..][1..]);
        if d.registry.unscoped.Failure? {
          assert FirstAvailable(steps[1..][1..]) == FirstAvailable(steps[1..][1..][1..]);
        }
      }
    }
  }

  /** An enabled listener service that answers with an empty list stops the
      chain, even when the scoped query would list sessions. */
  lemma EmptyListenerAnswerStopsChain(d: Device)
    requires ListenerService.IsServiceEnabled(d.listener)
    requires ListenerService.GetInstance(d.listener).value.hasManager
    requires d.registry.unscoped == Success([])
    ensures ResolveControllers(d) == []
  {
  }

  // -----------------------------------------------------------------------
  // Tracker and notifier state

  /** Side effects the bridge performs, in order. */
  datatype Effect =
    | Unregistered(controller: Controller)
    | Registered(controller: Controller)
    | Pushed(sink: nat, snapshot: map<Snapshot.Key, Snapshot.Value>)
    | ListenerAdded(scoped: bool)
    | ListenerRemoved

  /** activeMediaController, the controllers that carry mediaCallback,
      mediaEventSink, and whether sessionListener is registered. */
  datatype Bridge = Bridge(active: Option<Controller>, callbacks: set<Controller>, sink: Option<nat>, listening: bool)

  /** A transition: the state after an event and what was done, in order. */
  datatype Step = Step(next: Bridge, effects: seq<Effect>)

  /** The controllers an optional controller names. */
  function ActiveSet(active: Option<Controller>): set<Controller> {
    match active
    case Some(c) => {c}
    case None => {}
  }

  /** The callback is never left on a controller other than the active one,
      and the session listener is registered only while a sink is set. */
  predicate Valid(s: Bridge) {
    && s.callbacks <= ActiveSet(s.active)
    && (s.listening ==> s.sink.Some?)
  }

  /** State before configureFlutterEngine: nothing tracked, no sink. */
  const INITIAL: Bridge := Bridge(None, {}, None, false)

  /** notifyMediaSessionChanged: one push of the current snapshot when a
      sink is set, nothing otherwise. */
  function Notify(s: Bridge, d: Device): (r: seq<Effect>)
    ensures s.sink.None? ==> r == []
    ensures s.sink.Some? ==> r == [Pushed(s.sink.value, Snapshot.GetCurrentMediaSession(s.active, d.live))]
  {
    match s.sink
    case None => []
    case Some(k) => [Pushed(k, Snapshot.GetCurrentMediaSession(s.active, d.live))]
  }

  /** updateActiveMediaController: unregister the old controller's callback
      first, take the first resolved controller (none for an empty list),
      register the callback on it, then notify. */
  function UpdateActiveMediaController(s: Bridge, d: Device): (r: Step)
    ensures s.active.Some? ==> |r.effects| > 0 && r.effects[0] == Unregistered(s.active.value)
    ensures r.next.active ==
              if |ResolveControllers(d)| > 0 then Some(ResolveControllers(d)[0]) else None
    ensures Valid(s) ==> r.next.callbacks == ActiveSet(r.next.active)
    ensures Valid(s) ==> Valid(r.next)
    ensures r.next.sink == s.sink && r.next.listening == s.listening
    ensures r.next.active.Some? ==> Registered(r.next.active.value) in r.effects
    ensures s.sink.Some? ==>
              |r.effects| > 0 && r.effects[|r.effects| - 1] ==
                Pushed(s.sink.value, Snapshot.GetCurrentMediaSession(r.next.active, d.live))
    ensures s.sink.None? ==> forall k :: 0 <= k < |r.effects| ==> !r.effects[k].Pushed?
    ensures forall k :: 0 <= k < |r.effects| - 1 ==> !r.effects[k].Pushed?
    ensures forall k :: 0 <= k < |r.effects| && r.effects[k].Registered? ==> r.next.active == Some(r.effects[k].controller)
    ensures forall k :: 0 <= k < |r.effects| && r.effects[k].Unregistered? ==> k == 0 && s.active == Some(r.effects[k].controller)
    ensures forall k :: 0 <= k < |r.effects| ==> !r.effects[k].ListenerAdded? && !r.effects[k].ListenerRemoved?
    ensures |r.effects| <= 3
  {
    var unregister := if s.active.Some? then [Unregistered(s.active.value)] else [];
    var remaining := if s.active.Some? then s.callbacks - {s.active.value} else s.callbacks;
    var controllers := ResolveControllers(d);
    var chosen := if |controllers| > 0 then Some(controllers[0]) else None;
    var register := if chosen.Some? then [Registered(chosen.value)] else [];
    var next := s.(active := chosen, callbacks := remaining + ActiveSet(chosen));
    Step(next, unregister + register + Notify(next, d))
  }

  /** initializeMediaSessionManager: the first refresh, with no sink yet. */
  function Initialize(d: Device): (r: Step)
    ensures Valid(r.next)
    ensures r.next.sink.None? && !r.next.listening
    ensures r.next.callbacks == ActiveSet(r.next.active)
    ensures r.next.active == if |ResolveControllers(d)| > 0 then Some(ResolveControllers(d)[0]) else None
    ensures r.next.active.Some? ==> r.effects == [Registered(r.next.active.value)]
    ensures r.next.active.None? ==> r.effects == []
  {
    UpdateActiveMediaController(INITIAL, d)
  }

  /** sessionListener fires only while it is registered. */
  function OnActiveSessionsChanged(s: Bridge, d: Device): (r: Step)
    ensures !s.listening ==> r == Step(s, [])
    ensures s.listening ==> r == UpdateActiveMediaController(s, d)
  {
    if s.listening then UpdateActiveMediaController(s, d) else Step(s, [])
  }

  /** mediaCallback's onPlaybackStateChanged / onMetadataChanged on
      controller c: fires only if c carries the callback, and notifies. */
  function OnControllerChanged(s: Bridge, c: Controller, d: Device): (r: Step)
    ensures r.next == s
    ensures c !in s.callbacks ==> r.effects == []
    ensures c in s.callbacks ==> r.effects == Notify(s, d)
  {
    if c in s.callbacks then Step(s, Notify(s, d)) else Step(s, [])
  }

  /** onListen: replace the sink, register the session listener (with the
      component, else with null, else not at all), then push exactly one
      snapshot of the current state to the new sink. */
  function OnListen(s: Bridge, sink: nat, d: Device): (r: Step)
    ensures r.next.sink == Some(sink)
    ensures r.next.active == s.active && r.next.callbacks == s.callbacks
    ensures r.next.listening <==> s.listening || d.registry.listenScoped || d.registry.listenUnscoped
    ensures |r.effects| > 0
    ensures r.effects[|r.effects| - 1] == Pushed(sink, Snapshot.GetCurrentMediaSession(s.active, d.live))
    ensures r.effects[..|r.effects| - 1] ==
              if d.registry.listenScoped then [ListenerAdded(true)]
              else if d.registry.listenUnscoped then [ListenerAdded(false)]
              else []
    ensures Valid(s) ==> Valid(r.next)
  {
    var added :=
      if d.registry.listenScoped then [ListenerAdded(true)]
      else if d.registry.listenUnscoped then [ListenerAdded(false)]
      else [];
    var next := s.(sink := Some(sink), listening := s.listening || |added| > 0);
    Step(next, added + Notify(next, d))
  }

  /** onCancel: clear the sink, remove the session listener and unregister
      the callback from the active controller, which stays set. */
  function OnCancel(s: Bridge): (r: Step)
    ensures r.next.sink.None? && !r.next.listening
    ensures r.next.active == s.active
    ensures r.next.active.Some? ==> r.next.active.value !in r.next.callbacks
    ensures Valid(s) ==> r.next.callbacks == {} && Valid(r.next)
    ensures r.effects == [ListenerRemoved] + if s.active.Some? then [Unregistered(s.active.value)] else []
  {
    match s.active
    case Some(c) =>
      Step(s.(sink := None, listening := false, callbacks := s.callbacks - {c}), [ListenerRemoved, Unregistered(c)])
    case None =>
      Step(s.(sink := None, listening := false), [ListenerRemoved])
  }

  // -----------------------------------------------------------------------
  // Interleavings of events

  /** The atomic events the bridge reacts to. */
  datatype Event =
    | SessionsChanged(device: Device)
    | ControllerChanged(controller: Controller, device: Device)
    | Listen(sink: nat, device: Device)
    | Cancel

  function Apply(s: Bridge, e: Event): Step {
    match e
    case SessionsChanged(d) => OnActiveSessionsChanged(s, d)
    case ControllerChanged(c, d) => OnControllerChanged(s, c, d)
    case Listen(k, d) => OnListen(s, k, d)
    case Cancel => OnCancel(s)
  }

  /** The state after a sequence of events. */
  function Run(s: Bridge, events: seq<Event>): Bridge {
    if |events| == 0 then s
    else Apply(Run(s, events[..|events| - 1]), events[|events| - 1]).next
  }

  /** Every event keeps the state valid. */
  lemma ApplyPreservesValid(s: Bridge, e: Event)
    requires Valid(s)
    ensures Valid(Apply(s, e).next)
  {
  }

  /** In every state reachable from a valid one, the callback sits on the
      active controller or nowhere, and the listener only with a sink. */
  lemma {:induction false} RunPreservesValid(s: Bridge, events: seq<Event>)
    requires Valid(s)
    ensures Valid(Run(s, events))
  {
    if |events| > 0 {
      RunPreservesValid(s, events[..|events| - 1]);
      ApplyPreservesValid(Run(s, events[..|events| - 1]), events[|events| - 1]);
    }
  }

  /** Every state the bridge reaches after initialisation is valid. */
  lemma ReachableStatesValid(d: Device, events: seq<Event>)
    ensures Valid(Run(Initialize(d).next, events))
  {
    RunPreservesValid(Initialize(d).next, events);
  }

  /** In a valid state a controller callback reports on the very controller
      that fired it. */
  lemma CallbackReportsItsController(s: Bridge, c: Controller, d: Device)
    requires Valid(s) && c in s.callbacks && s.sink.Some?
    ensures OnControllerChanged(s, c, d).effects == [Pushed(s.sink.value, Snapshot.GetCurrentMediaSession(Some(c), d.live))]
  {
  }

  /** After onCancel the stale active controller no longer carries the
      callback, so the next refresh's unregister is a no-op, and the refresh
      still leaves the callback on the new active controller only. */
  lemma CancelThenRefresh(s: Bridge, d: Device)
    requires Valid(s)
    ensures var s1 := OnCancel(s).next;
            && (s1.active.Some? ==> s1.active.value !in s1.callbacks)
            && UpdateActiveMediaController(s1, d).next.callbacks == ActiveSet(UpdateActiveMediaController(s1, d).next.active)
  {
  }

  /** Cancelling and subscribing again keeps the old active controller but
      not its callback: its playback and metadata changes push nothing until
      the session list changes. */
  lemma ResubscribeLeavesControllerSilent(s: Bridge, c: Controller, sink: nat, d: Device, later: Device)
    requires Valid(s) && s.active == Some(c)
    ensures var s2 := OnListen(OnCancel(s).next, sink, d).next;
            && s2.active == Some(c) && s2.sink == Some(sink)
            && OnControllerChanged(s2, c, later).effects == []
  {
  }

  /** A second onListen replaces the first sink: its own push, and every
      later notification or controller callback, go to the new sink only. */
  lemma SecondListenReplacesSink(s: Bridge, first: nat, second: nat, d: Device, c: Controller, later: Device)
    ensures var s2 := OnListen(OnListen(s, first, d).next, second, d).next;
            && s2.sink == Some(second)
            && Notify(s2, later) == [Pushed(second, Snapshot.GetCurrentMediaSession(s2.active, later.live))]
            && forall k :: 0 <= k < |OnControllerChanged(s2, c, later).effects| ==>
                 OnControllerChanged(s2, c, later).effects[k].sink == second
  {
  }

  /** Subscribing with no session pushes {hasActiveSession: false}; when a
      playing session with play and pause capabilities becomes active, the
      next push lists exactly those two actions. */
  lemma SubscribeThenSessionStarts(c: Controller, sink: nat)
    ensures var idle := Device(Registry(Success([]), Success([]), true, true), ListenerService.Slot(None), Live(map[], map[], map[]));
            var playing := Device(Registry(Success([c]), Success([c]), true, true), ListenerService.Slot(None),
                                  Live(map[], map[], map[c := PlaybackState(Snapshot.STATE_PLAYING, 0, Snapshot.ACTION_PLAY | Snapshot.ACTION_PAUSE)]));
            var s1 := OnListen(Initialize(idle).next, sink, idle);
            var s2 := OnActiveSessionsChanged(s1.next, playing);
            && s1.effects[|s1.effects| - 1] == Pushed(sink, map[Snapshot.HasActiveSession := Snapshot.Bool(false)])
            && s2.next.active == Some(c)
            && s2.effects[|s2.effects| - 1].Pushed?
            && s2.effects[|s2.effects| - 1].snapshot[Snapshot.AvailableActions] == Snapshot.StrList(["play", "pause"])
            && s2.effects[|s2.effects| - 1].snapshot[Snapshot.IsPlaying] == Snapshot.Bool(true)
  {
    var idle := Device(Registry(Success([]), Success([]), true, true), ListenerService.Slot(None), Live(map[], map[], map[]));
    var mask := Snapshot.ACTION_PLAY | Snapshot.ACTION_PAUSE;
    var playing := Device(Registry(Success([c]), Success([c]), true, true), ListenerService.Slot(None),
                          Live(map[], map[], map[c := PlaybackState(Snapshot.STATE_PLAYING, 0, mask)]));
    var s0 := Initialize(idle).next;
    assert ResolveControllers(idle) == [];
    assert s0.active.None? && s0.sink.None? && s0.callbacks == {};
    var s1 := OnListen(s0, sink, idle);
    assert s1.next.listening && s1.next.active.None?;
    assert ResolveControllers(playing) == [c];
    var s2 := OnActiveSessionsChanged(s1.next, playing);
    assert s2 == UpdateActiveMediaController(s1.next, playing);
    assert s2.next.active == Some(c);
    var snap := Snapshot.GetCurrentMediaSession(Some(c), playing.live);
    assert s2.effects[|s2.effects| - 1] == Pushed(sink, snap);
    Snapshot.SnapshotPlayback(c, playing.live);
    Snapshot.DecodeMatchesSelect(mask);
    Snapshot.DecodePlayPause();
    assert snap[Snapshot.AvailableActions] == Snapshot.StrList(Snapshot.DecodeActions(mask));
  }
}
