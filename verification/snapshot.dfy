/** getCurrentMediaSession: the map pushed to the client, projected from the
    active controller's package, label, metadata and playback state. */
module Snapshot {
  import opened Wrappers
  import opened Sessions

  /** The values a snapshot map holds. */
  datatype Value = Str(s: string) | Null | Bool(b: bool) | Long(n: int) | StrList(items: seq<string>)

  /** PlaybackState.STATE_PLAYING. */
  const STATE_PLAYING: int := 3

  /** PlaybackState action bits, as Android publishes them. */
  const ACTION_PAUSE: bv64 := 2
  const ACTION_PLAY: bv64 := 4
  const ACTION_SKIP_TO_PREVIOUS: bv64 := 16
  const ACTION_SKIP_TO_NEXT: bv64 := 32
  const ACTION_SEEK_TO: bv64 := 256

  /** MediaMetadata keys read by the snapshot. */
  const METADATA_KEY_TITLE: string := "android.media.metadata.TITLE"
  const METADATA_KEY_ARTIST: string := "android.media.metadata.ARTIST"
  const METADATA_KEY_ALBUM: string := "android.media.metadata.ALBUM"
  const METADATA_KEY_DURATION: string := "android.media.metadata.DURATION"

  /** A capability the client is told about: its name and its bit. */
  datatype Capability = Capability(name: string, bit: bv64)

  /** The capabilities in the order the snapshot lists them. */
  const CAPABILITIES: seq<Capability> := [
    Capability("play", ACTION_PLAY),
    Capability("pause", ACTION_PAUSE),
    Capability("skipToNext", ACTION_SKIP_TO_NEXT),
    Capability("skipToPrevious", ACTION_SKIP_TO_PREVIOUS),
    Capability("seekTo", ACTION_SEEK_TO)]

  /** The union of the known bits. */
  const KNOWN_ACTIONS: bv64 := ACTION_PLAY | ACTION_PAUSE | ACTION_SKIP_TO_NEXT | ACTION_SKIP_TO_PREVIOUS | ACTION_SEEK_TO

  /** The capability's bit is set in the mask. */
  predicate Enabled(c: Capability, mask: bv64) {
    mask & c.bit != 0
  }

  /** Reference decoding: the names of the capabilities whose bit is set,
      keeping the order of `caps`. */
  function Select(caps: seq<Capability>, mask: bv64): seq<string> {
    if |caps| == 0 then []
    else (if Enabled(caps[0], mask) then [caps[0].name] else []) + Select(caps[1..], mask)
  }

  /** The five bit tests of getCurrentMediaSession, in source order. */
  function DecodeActions(mask: bv64): seq<string> {
    (if mask & ACTION_PLAY != 0 then ["play"] else [])
    + ((if mask & ACTION_PAUSE != 0 then ["pause"] else [])
    + ((if mask & ACTION_SKIP_TO_NEXT != 0 then ["skipToNext"] else [])
    + ((if mask & ACTION_SKIP_TO_PREVIOUS != 0 then ["skipToPrevious"] else [])
    + (if mask & ACTION_SEEK_TO != 0 then ["seekTo"] else []))))
  }

  /** The five source tests agree with the reference decoding: the
      selected names, in capability order. */
  lemma DecodeMatchesSelect(mask: bv64)
    ensures DecodeActions(mask) == Select(CAPABILITIES, mask)
  {
    var c4 := [Capability("seekTo", ACTION_SEEK_TO)];
    var c3 := [Capability("skipToPrevious", ACTION_SKIP_TO_PREVIOUS)] + c4;
    var c2 := [Capability("skipToNext", ACTION_SKIP_TO_NEXT)] + c3;
    var c1 := [Capability("pause", ACTION_PAUSE)] + c2;
    assert CAPABILITIES == [Capability("play", ACTION_PLAY)] + c1;
    SelectCons(Capability("seekTo", ACTION_SEEK_TO), [], mask);
    assert c4 == [Capability("seekTo", ACTION_SEEK_TO)] + [];
    SelectCons(Capability("skipToPrevious", ACTION_SKIP_TO_PREVIOUS), c4, mask);
    SelectCons(Capability("skipToNext", ACTION_SKIP_TO_NEXT), c3, mask);
    SelectCons(Capability("pause", ACTION_PAUSE), c2, mask);
    SelectCons(Capability("play", ACTION_PLAY), c1, mask);
  }

  /** One step of the reference decoding. */
  lemma SelectCons(c: Capability, rest: seq<Capability>, mask: bv64)
    ensures Select([c] + rest, mask) == (if Enabled(c, mask) then [c.name] else []) + Select(rest, mask)
  {
    assert ([c] + rest)[1..] == rest;
  }

  /** A name is selected iff some capability of that name has its bit set. */
  lemma {:induction false} SelectMembership(caps: seq<Capability>, mask: bv64, name: string)
    ensures name in Select(caps, mask) <==> exists i :: 0 <= i < |caps| && caps[i].name == name && Enabled(caps[i], mask)
  {
    if |caps| > 0 {
      var tail := caps[1..];
      SelectMembership(tail, mask, name);
      assert forall i :: 0 <= i < |tail| ==> tail[i] == caps[i + 1];
      if exists i :: 0 <= i < |caps| && caps[i].name == name && Enabled(caps[i], mask) {
        var i :| 0 <= i < |caps| && caps[i].name == name && Enabled(caps[i], mask);
        if i > 0 {
          assert tail[i - 1] == caps[i];
        }
      }
    }
  }

  /** availableActions lists "seekTo" exactly when the seek bit is set, and
      likewise for each of the five capabilities. */
  lemma DecodeMembership(mask: bv64)
    ensures "play" in DecodeActions(mask) <==> mask & ACTION_PLAY != 0
    ensures "pause" in DecodeActions(mask) <==> mask & ACTION_PAUSE != 0
    ensures "skipToNext" in DecodeActions(mask) <==> mask & ACTION_SKIP_TO_NEXT != 0
    ensures "skipToPrevious" in DecodeActions(mask) <==> mask & ACTION_SKIP_TO_PREVIOUS != 0
    ensures "seekTo" in DecodeActions(mask) <==> mask & ACTION_SEEK_TO != 0
  {
  }

  /** Bits other than the five known ones never change the decoded list. */
  lemma DecodeIgnoresUnknownBits(mask: bv64)
    ensures DecodeActions(mask) == DecodeActions(mask & KNOWN_ACTIONS)
  {
  }

  /** The play+pause mask decodes to exactly ["play", "pause"]. */
  lemma DecodePlayPause()
    ensures DecodeActions(ACTION_PLAY | ACTION_PAUSE) == ["play", "pause"]
  {
  }

  /** A nullable string as a map value. */
  function StrOrNull(o: Option<string>): Value {
    match o
    case Some(v) => Str(v)
    case None => Null
  }

  /** MediaMetadata.getLong: 0 when the key is absent. */
  function GetLong(md: Metadata, key: string): int {
    if key in md.longs then md.longs[key] else 0
  }

  /** The keys of the snapshot map. */
  datatype Key =
    | HasActiveSession | PackageName | AppName
    | Title | Artist | Album | Duration
    | IsPlaying | Position | AvailableActions

  /** The string each key is sent under. */
  function KeyName(k: Key): string {
    match k
    case HasActiveSession => "hasActiveSession"
    case PackageName => "packageName"
    case AppName => "appName"
    case Title => "title"
    case Artist => "artist"
    case Album => "album"
    case Duration => "duration"
    case IsPlaying => "isPlaying"
    case Position => "position"
    case AvailableActions => "availableActions"
  }

  /** The keys written from a non-null metadata object. */
  const METADATA_KEYS: set<Key> := {Title, Artist, Album, Duration}
  /** The keys written from a non-null playback state. */
  const PLAYBACK_KEYS: set<Key> := {IsPlaying, Position, AvailableActions}

  /** The four metadata entries, written whenever the metadata object is
      non-null even when a value itself is null. */
  function WithMetadata(m: map<Key, Value>, md: Metadata): (r: map<Key, Value>)
    ensures r.Keys == m.Keys + METADATA_KEYS
    ensures forall k :: k in m && k !in METADATA_KEYS ==> r[k] == m[k]
    ensures r[Title] == StrOrNull(Lookup(md.strings, METADATA_KEY_TITLE))
    ensures r[Artist] == StrOrNull(Lookup(md.strings, METADATA_KEY_ARTIST))
    ensures r[Album] == StrOrNull(Lookup(md.strings, METADATA_KEY_ALBUM))
    ensures r[Duration] == Long(GetLong(md, METADATA_KEY_DURATION))
  {
    m[Title := StrOrNull(Lookup(md.strings, METADATA_KEY_TITLE))]
     [Artist := StrOrNull(Lookup(md.strings, METADATA_KEY_ARTIST))]
     [Album := StrOrNull(Lookup(md.strings, METADATA_KEY_ALBUM))]
     [Duration := Long(GetLong(md, METADATA_KEY_DURATION))]
  }

  /** The three playback entries; availableActions is the reference
      decoding of the capability mask. */
  function WithPlayback(m: map<Key, Value>, ps: PlaybackState): (r: map<Key, Value>)
    ensures r.Keys == m.Keys + PLAYBACK_KEYS
    ensures forall k :: k in m && k !in PLAYBACK_KEYS ==> r[k] == m[k]
    ensures r[IsPlaying] == Bool(ps.state == STATE_PLAYING)
    ensures r[Position] == Long(ps.position)
    ensures r[AvailableActions] == StrList(Select(CAPABILITIES, ps.actions))
  {
    DecodeMatchesSelect(ps.actions);
    m[IsPlaying := Bool(ps.state == STATE_PLAYING)]
     [Position := Long(ps.position)]
     [AvailableActions := StrList(DecodeActions(ps.actions))]
  }

  /** The snapshot of a non-null active controller: hasActiveSession true,
      the package, and the label falling back to the package when the
      application lookup fails; see the lemmas below for the other keys. */
  function ActiveSessionInfo(c: Controller, live: Live): (r: map<Key, Value>)
    ensures HasActiveSession in r && r[HasActiveSession] == Bool(true)
    ensures PackageName in r && r[PackageName] == Str(c.packageName)
    ensures AppName in r && r[AppName] == Str(Lookup(live.labels, c.packageName).GetOr(c.packageName))
  {
    var appName := if c.packageName in live.labels then live.labels[c.packageName] else c.packageName;
    var info := map[PackageName := Str(c.packageName), AppName := Str(appName)];
    var withMetadata := if c in live.metadata then WithMetadata(info, live.metadata[c]) else info;
    var withPlayback := if c in live.playback then WithPlayback(withMetadata, live.playback[c]) else withMetadata;
    withPlayback[HasActiveSession := Bool(true)]
  }

  /** The metadata keys are present iff the controller has metadata, the
      playback keys iff it has a playback state, and nothing else is. */
  lemma SnapshotKeys(c: Controller, live: Live)
    ensures ActiveSessionInfo(c, live).Keys ==
              {HasActiveSession, PackageName, AppName}
              + (if c in live.metadata then METADATA_KEYS else {})
              + (if c in live.playback then PLAYBACK_KEYS else {})
  {
  }

  /** With metadata, title, artist and album are the metadata strings (null
      when absent) and duration its long (0 when absent). */
  lemma SnapshotMetadata(c: Controller, live: Live)
    requires c in live.metadata
    ensures var r := ActiveSessionInfo(c, live);
            var md := live.metadata[c];
            && r[Title] == StrOrNull(Lookup(md.strings, METADATA_KEY_TITLE))
            && r[Artist] == StrOrNull(Lookup(md.strings, METADATA_KEY_ARTIST))
            && r[Album] == StrOrNull(Lookup(md.strings, METADATA_KEY_ALBUM))
            && r[Duration] == Long(GetLong(md, METADATA_KEY_DURATION))
  {
  }

  /** With a playback state, isPlaying is state == STATE_PLAYING, position
      is copied, and availableActions is the decoded capability list. */
  lemma SnapshotPlayback(c: Controller, live: Live)
    requires c in live.playback
    ensures var r := ActiveSessionInfo(c, live);
            var ps := live.playback[c];
            && r[IsPlaying] == Bool(ps.state == STATE_PLAYING)
            && r[Position] == Long(ps.position)
            && r[AvailableActions] == StrList(Select(CAPABILITIES, ps.actions))
  {
  }

  /** getCurrentMediaSession: exactly {hasActiveSession: false} without an
      active controller, the active controller's snapshot otherwise. */
  function GetCurrentMediaSession(active: Option<Controller>, live: Live): (r: map<Key, Value>)
    ensures active.None? ==> r == map[HasActiveSession := Bool(false)]
    ensures active.Some? ==> r == ActiveSessionInfo(active.value, live)
  {
    match active
    case None => map[HasActiveSession := Bool(false)]
    case Some(c) => ActiveSessionInfo(c, live)
  }
}
