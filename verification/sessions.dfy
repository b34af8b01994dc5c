/** The Android media-session objects the bridge reads, reduced to values. */
module Sessions {
  import opened Wrappers

  /** A MediaController handle: the session it controls and the package
      that owns that session. */
  datatype Controller = Controller(token: nat, packageName: string)

  /** The SecurityException MediaSessionManager throws when the caller
      lacks the notification-listener permission. */
  datatype Denied = SecurityException

  /** What MediaSessionManager answers at one moment: getActiveSessions
      with this app's listener component, getActiveSessions(null), and
      whether addOnActiveSessionsChangedListener succeeds with the
      component or with null. */
  datatype Registry = Registry(
    scoped: Result<seq<Controller>, Denied>,
    unscoped: Result<seq<Controller>, Denied>,
    listenScoped: bool,
    listenUnscoped: bool)

  /** MediaMetadata: string and long entries by key. */
  datatype Metadata = Metadata(strings: map<string, string>, longs: map<string, int>)

  /** PlaybackState: state constant, position and the capability mask. */
  datatype PlaybackState = PlaybackState(state: int, position: int, actions: bv64)

  /** The live state a snapshot reads: application labels by package (an
      absent package makes getApplicationInfo throw NameNotFoundException)
      and each controller's metadata and playback state (absent: null). */
  datatype Live = Live(
    labels: map<string, string>,
    metadata: map<Controller, Metadata>,
    playback: map<Controller, PlaybackState>)
}
