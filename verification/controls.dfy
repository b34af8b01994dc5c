/** sendMediaAction, sendPlayPause and the four direct senders: which
    transport control, if any, reaches the active controller. */
module Controls {
  import opened Wrappers
  import opened Sessions
  import Snapshot

  /** The TransportControls calls the bridge makes. */
  datatype Command = Play | Pause | SkipToNext | SkipToPrevious | Stop

  /** The action name a command is requested under. */
  function CommandName(c: Command): string {
    match c
    case Play => "play"
    case Pause => "pause"
    case SkipToNext => "skipToNext"
    case SkipToPrevious => "skipToPrevious"
    case Stop => "stop"
  }

  /** The switch of sendMediaAction: a recognised name, or None for the
      default branch. */
  function ParseAction(action: string): Option<Command> {
    match action
    case "play" => Some(Play)
    case "pause" => Some(Pause)
    case "skipToNext" => Some(SkipToNext)
    case "skipToPrevious" => Some(SkipToPrevious)
    case "stop" => Some(Stop)
    case _ => None
  }

  /** The switch recognises exactly the command names. */
  lemma ParseActionInvertsName(action: string, c: Command)
    ensures ParseAction(CommandName(c)) == Some(c)
    ensures ParseAction(action) == Some(c) <==> action == CommandName(c)
  {
  }

  /** A sender's answer: the boolean returned and the command sent. */
  datatype Dispatch = Dispatch(ok: bool, sent: Option<(Controller, Command)>)

  /** sendMediaAction: true and the named command sent to the active
      controller for the five known names; false and nothing sent with no
      controller or for any other name. */
  function SendMediaAction(active: Option<Controller>, action: string): (r: Dispatch)
    ensures r.ok <==> r.sent.Some?
    ensures r.ok <==> active.Some? && action in {"play", "pause", "skipToNext", "skipToPrevious", "stop"}
    ensures r.ok ==> r.sent.value.0 == active.value && CommandName(r.sent.value.1) == action
  {
    match active
    case None => Dispatch(false, None)
    case Some(c) =>
      match ParseAction(action)
      case Some(cmd) => Dispatch(true, Some((c, cmd)))
      case None => Dispatch(false, None)
  }

  /** "seekTo" is listed as an available action but is not dispatched. */
  lemma SeekToIsRejected(active: Option<Controller>)
    ensures !SendMediaAction(active, "seekTo").ok
  {
  }

  /** sendPlayPause: needs a controller with a playback state; pauses when
      playing and plays otherwise. */
  function SendPlayPause(active: Option<Controller>, live: Live): (r: Dispatch)
    ensures r.ok <==> r.sent.Some?
    ensures r.ok <==> active.Some? && active.value in live.playback
    ensures r.ok ==> r.sent.value.0 == active.value
    ensures r.ok ==> (r.sent.value.1 == Pause <==> live.playback[active.value].state == Snapshot.STATE_PLAYING)
    ensures r.ok ==> r.sent.value.1 in {Play, Pause}
  {
    match active
    case None => Dispatch(false, None)
    case Some(c) =>
      if c in live.playback then
        if live.playback[c].state == Snapshot.STATE_PLAYING then Dispatch(true, Some((c, Pause)))
        else Dispatch(true, Some((c, Play)))
      else Dispatch(false, None)
  }

  /** The shape shared by sendPlay, sendPause, sendSkipToNext and
      sendSkipToPrevious: send one fixed command if there is a controller. */
  function SendDirect(active: Option<Controller>, cmd: Command): (r: Dispatch)
    ensures r.ok <==> active.Some?
    ensures r.ok ==> r.sent == Some((active.value, cmd))
    ensures !r.ok ==> r.sent.None?
  {
    match active
    case None => Dispatch(false, None)
    case Some(c) => Dispatch(true, Some((c, cmd)))
  }

  function SendPlay(active: Option<Controller>): Dispatch { SendDirect(active, Play) }
  function SendPause(active: Option<Controller>): Dispatch { SendDirect(active, Pause) }
  function SendSkipToNext(active: Option<Controller>): Dispatch { SendDirect(active, SkipToNext) }
  function SendSkipToPrevious(active: Option<Controller>): Dispatch { SendDirect(active, SkipToPrevious) }

  /** The direct senders behave exactly as sendMediaAction with their name. */
  lemma DirectSendersAgreeWithDispatch(active: Option<Controller>)
    ensures SendPlay(active) == SendMediaAction(active, "play")
    ensures SendPause(active) == SendMediaAction(active, "pause")
    ensures SendSkipToNext(active) == SendMediaAction(active, "skipToNext")
    ensures SendSkipToPrevious(active) == SendMediaAction(active, "skipToPrevious")
  {
  }

  /** With a playback state, sendPlayPause sends what sendMediaAction sends
      for "pause" when playing and for "play" otherwise. */
  lemma PlayPauseAgreesWithDispatch(active: Option<Controller>, live: Live)
    requires active.Some? && active.value in live.playback
    ensures SendPlayPause(active, live) ==
              SendMediaAction(active, if live.playback[active.value].state == Snapshot.STATE_PLAYING then "pause" else "play")
  {
  }
}
