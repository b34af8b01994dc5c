# FLauncher Android core, modelled in Dafny

This project models the decision logic on the Android side of FLauncher, a
launcher for Android TV. The logic lives in `MainActivity` and
`MediaNotificationListenerService`. It has two halves.

**Application inventory** (`inventory.dfy`, module `Inventory`). `getApplications`
runs two launcher-category queries:

- the tv ("leanback") query;
- the general launcher query.

Every tv activity becomes a task with `sideloaded = false`. A general activity
becomes a task with `sideloaded = true` only when no tv activity has the same
package. Duplicates inside one list are kept. Each task builds one record, and
the records are collected in completion order. One record for the system
settings activity is appended last when:

- no tv activity is `com.android.tv.settings`;
- no general activity is `com.android.settings`;
- a settings activity resolves.

`getApplication` builds a single record: it tries the leanback launch intent
first, and the plain launch intent only when there is no leanback intent.

**Media session bridge** (`sessions.dfy`, `listener_service.dfy`, `snapshot.dfy`,
`controls.dfy`, `bridge.dfy`).

- `MediaNotificationListenerService` keeps a static instance. `onCreate` sets it
  and `onDestroy` clears it. `getActiveMediaSessions` maps a denial or a
  missing manager to null.
- `updateActiveMediaController` resolves the controllers through an ordered
  fallback chain:
  1. the listener service's non-null answer, even an empty one;
  2. the query scoped to the listener component;
  3. the unscoped query, if step 2 is denied;
  4. an empty list, if step 3 is also denied.
- It then unregisters the old controller's callback, takes the first
  controller, registers the callback on it, and notifies.
- `getCurrentMediaSession` turns the active controller into a snapshot map.
  The capability bitmask becomes an ordered action list.
- `sendMediaAction`, `sendPlayPause` and the four direct senders decide which
  transport command is sent.
- The media event stream handler keeps one sink. `onListen` replaces the sink
  and pushes one snapshot. `onCancel` clears the sink and removes the session
  listener. It also unregisters the callback but leaves the active controller
  set.

The bridge is a value-level state machine, `MediaBridge.Bridge`. Its fields are:

- the active controller;
- the set of controllers carrying the callback;
- the sink;
- whether the session listener is registered.

Every operation returns the next state and the ordered list of side effects
(`Unregistered`, `Registered`, `Pushed`, `ListenerAdded`, `ListenerRemoved`).
Callback-thread events are an interleaving of atomic calls (`MediaBridge.Run`).
`MediaBridge.Valid` is an invariant: the callback sits only on the active
controller, and the session listener is registered only while a sink is set.
Every reachable state satisfies it.

`ResubscribeLeavesControllerSilent` proves one consequence of the code. After
`onCancel` and a new `onListen`, the old active controller is still active but
carries no callback. Its playback and metadata changes push nothing until the
session list changes.

Behaviour of the code worth knowing:

- A failed category query leaves its list null, and the list is then
  dereferenced (MainActivity.java:146-155). The model takes both query results
  as present lists.
- Two activities of one package in the same list give two records
  (`Inventory.DuplicatesKept`).
- The injected settings record goes through the same record builder, so it
  carries the settings package's version name.
- `availableActions` is a list in the fixed order play, pause, skipToNext,
  skipToPrevious, seekTo.

The snapshot has no hidden state, so two calls with no state change in between
give equal maps.

## Model

| member | source | states |
|---|---|---|
| Inventory.BuildAppMap | android/app/src/main/java/me/efesser/flauncher/MainActivity.java:301-321 | name is the label, packageName and sideloaded are copied, the "action" entry is present iff an action is given, and version is "" when the package lookup fails |
| Inventory.ScanTv | android/app/src/main/java/me/efesser/flauncher/MainActivity.java:157-166 | the first loop submits one non-sideloaded task per tv activity, in order; its sticky flag is true iff some tv package is com.android.tv.settings |
| Inventory.IsDuplicate | android/app/src/main/java/me/efesser/flauncher/MainActivity.java:175-180 | the inner loop with its early break reports a duplicate iff some tv activity has the candidate's package |
| Inventory.ScanGeneral | android/app/src/main/java/me/efesser/flauncher/MainActivity.java:168-186 | the second loop appends exactly the general activities whose package is not in tv, as sideloaded tasks; it checks com.android.settings on every general entry, duplicates included |
| Inventory.Collect | android/app/src/main/java/me/efesser/flauncher/MainActivity.java:188-196 | the draining loop takes exactly appCount times, and a throwing task is skipped but still counted |
| Inventory.SettingsFallback | android/app/src/main/java/me/efesser/flauncher/MainActivity.java:200-208 | one record is appended iff the settings flag is false and a settings activity resolves; it is not sideloaded and carries ACTION_SETTINGS |
| Inventory.GetApplications | android/app/src/main/java/me/efesser/flauncher/MainActivity.java:124-211 | the result is the completion-order collection followed by the settings fallback; the number of takes is \|tv\| plus the number of general entries whose package is not in tv; if the settings record is added, it is last |
| Inventory.GetApplication | android/app/src/main/java/me/efesser/flauncher/MainActivity.java:213-231 | a record exists iff the leanback intent resolves, or there is no leanback intent and the launch intent resolves; it is the unsideloaded, action-less record of that resolved activity |
| Inventory.CollectedLength | android/app/src/main/java/me/efesser/flauncher/MainActivity.java:188-196 | the output is never longer than the number of takes, and equals it when no task throws |
| Inventory.CollectedWithoutFailures | android/app/src/main/java/me/efesser/flauncher/MainActivity.java:188-196 | with no throwing task, the output is one record per task in completion order |
| Inventory.BuildAllPermutation | android/app/src/main/java/me/efesser/flauncher/MainActivity.java:152-196 | any completion order of the same tasks gives the same multiset of records |
| Inventory.CompleteWithoutFailures | android/app/src/main/java/me/efesser/flauncher/MainActivity.java:152-196 | with no throwing task, the output is a permutation of one record per submitted task, and its length is \|tv\| + \|general not in tv\| |
| Inventory.TvTasksMultiplicity | android/app/src/main/java/me/efesser/flauncher/MainActivity.java:159-166 | each tv activity occurrence yields exactly one non-sideloaded task |
| Inventory.SideloadedTasksMultiplicity | android/app/src/main/java/me/efesser/flauncher/MainActivity.java:168-186 | each general occurrence yields one sideloaded task when its package is not in tv, and none otherwise |
| Inventory.SubmittedMultiplicity | android/app/src/main/java/me/efesser/flauncher/MainActivity.java:158-186 | the merge rule, counted per task: duplicates inside one list survive, and tv wins on shared packages |
| Inventory.SubmittedMembership | android/app/src/main/java/me/efesser/flauncher/MainActivity.java:159-186 | a task is submitted iff it comes from tv unsideloaded, or from general sideloaded with a package not in tv |
| Inventory.TvPrecedence | android/app/src/main/java/me/efesser/flauncher/MainActivity.java:175-185 | no sideloaded task shares a package with a tv activity |
| Inventory.DuplicatesKept | android/app/src/main/java/me/efesser/flauncher/MainActivity.java:159-166 | two different tv activities of one package both become unsideloaded tasks, in order, so the package appears twice |
| Inventory.MergeExample | android/app/src/main/java/me/efesser/flauncher/MainActivity.java:159-186 | tv [com.a] with general [com.a, com.b] gives exactly com.a unsideloaded, then com.b sideloaded |
| ListenerService.GetInstance | android/app/src/main/java/me/efesser/flauncher/MediaNotificationListenerService.java:82-91 | getInstance is non-null exactly when isServiceEnabled |
| ListenerService.OnCreate | android/app/src/main/java/me/efesser/flauncher/MediaNotificationListenerService.java:37-45 | after onCreate the service reports enabled and getInstance returns the created service |
| ListenerService.OnDestroy | android/app/src/main/java/me/efesser/flauncher/MediaNotificationListenerService.java:47-51 | after onDestroy the service reports disabled |
| ListenerService.GetActiveMediaSessions | android/app/src/main/java/me/efesser/flauncher/MediaNotificationListenerService.java:67-77 | the result is null iff there is no manager or the unscoped query is denied; otherwise it is the unscoped registry answer unchanged |
| ListenerService.DestroyOfStaleServiceDisables | android/app/src/main/java/me/efesser/flauncher/MediaNotificationListenerService.java:47-51 | destroying an older service also clears a newer instance |
| Snapshot.DecodeMatchesSelect | android/app/src/main/java/me/efesser/flauncher/MainActivity.java:542-552 | the five bit tests give the capabilities whose bit is set, in the order play, pause, skipToNext, skipToPrevious, seekTo |
| Snapshot.SelectMembership | android/app/src/main/java/me/efesser/flauncher/MainActivity.java:546-550 | a name is listed iff a capability of that name has its bit set |
| Snapshot.DecodeMembership | android/app/src/main/java/me/efesser/flauncher/MainActivity.java:546-550 | each of the five names is listed iff its bit is set |
| Snapshot.DecodeIgnoresUnknownBits | android/app/src/main/java/me/efesser/flauncher/MainActivity.java:544-550 | bits outside the five known ones never change the list |
| Snapshot.DecodePlayPause | android/app/src/main/java/me/efesser/flauncher/MainActivity.java:546-547 | the play+pause mask decodes to exactly [play, pause] |
| Snapshot.WithMetadata | android/app/src/main/java/me/efesser/flauncher/MainActivity.java:528-534 | all four metadata keys are written, with null strings when absent and duration 0 when absent; other keys are untouched |
| Snapshot.WithPlayback | android/app/src/main/java/me/efesser/flauncher/MainActivity.java:536-553 | isPlaying is state == STATE_PLAYING, position is copied, and availableActions is the decoded list; other keys are untouched |
| Snapshot.ActiveSessionInfo | android/app/src/main/java/me/efesser/flauncher/MainActivity.java:512-525 | with a controller: hasActiveSession is true, packageName is set, and appName falls back to packageName on a lookup failure |
| Snapshot.SnapshotKeys | android/app/src/main/java/me/efesser/flauncher/MainActivity.java:511-556 | metadata keys appear iff metadata exists, playback keys iff a playback state exists, and there are no other keys |
| Snapshot.SnapshotMetadata | android/app/src/main/java/me/efesser/flauncher/MainActivity.java:527-534 | the snapshot's title, artist, album and duration come from the metadata |
| Snapshot.SnapshotPlayback | android/app/src/main/java/me/efesser/flauncher/MainActivity.java:536-553 | the snapshot's isPlaying, position and availableActions come from the playback state |
| Snapshot.GetCurrentMediaSession | android/app/src/main/java/me/efesser/flauncher/MainActivity.java:511-563 | with no controller the map is exactly {hasActiveSession: false} |
| Controls.ParseActionInvertsName | android/app/src/main/java/me/efesser/flauncher/MainActivity.java:569-578 | the switch recognises a name iff it is a command's name, and it inverts the naming |
| Controls.SendMediaAction | android/app/src/main/java/me/efesser/flauncher/MainActivity.java:565-582 | the result is true iff there is a controller and the name is play, pause, skipToNext, skipToPrevious or stop; then exactly that command is sent |
| Controls.SeekToIsRejected | android/app/src/main/java/me/efesser/flauncher/MainActivity.java:569-578 | "seekTo" is not dispatched |
| Controls.SendPlayPause | android/app/src/main/java/me/efesser/flauncher/MainActivity.java:584-598 | the result is true iff there is a controller with a playback state; then it sends pause iff playing, else play |
| Controls.SendDirect | android/app/src/main/java/me/efesser/flauncher/MainActivity.java:600-630 | the direct senders are true iff there is a controller, and then send their fixed command |
| Controls.DirectSendersAgreeWithDispatch | android/app/src/main/java/me/efesser/flauncher/MainActivity.java:600-630 | sendPlay, sendPause, sendSkipToNext and sendSkipToPrevious equal sendMediaAction with their name |
| Controls.PlayPauseAgreesWithDispatch | android/app/src/main/java/me/efesser/flauncher/MainActivity.java:584-598 | sendPlayPause equals sendMediaAction("pause") when playing, and sendMediaAction("play") otherwise |
| MediaBridge.ListenerStep | android/app/src/main/java/me/efesser/flauncher/MainActivity.java:479-482 | the listener service is asked only when it reports itself enabled, and then its getActiveMediaSessions answer is the step's result |
| MediaBridge.FirstAvailableSpec | android/app/src/main/java/me/efesser/flauncher/MainActivity.java:477-497 | the reference chain returns the list of the first step that produced one, every earlier step having failed, or empty when all steps failed |
| MediaBridge.ResolveControllers | android/app/src/main/java/me/efesser/flauncher/MainActivity.java:477-497 | a non-null listener answer, even an empty one, wins; otherwise scoped, then unscoped on denial, then empty; nothing is thrown |
| MediaBridge.ResolveIsFirstAvailable | android/app/src/main/java/me/efesser/flauncher/MainActivity.java:477-497 | the nested try/catch fallbacks equal the ordered three-step chain |
| MediaBridge.EmptyListenerAnswerStopsChain | android/app/src/main/java/me/efesser/flauncher/MainActivity.java:480-485 | an empty, non-null answer from the enabled listener service stops the chain |
| MediaBridge.Notify | android/app/src/main/java/me/efesser/flauncher/MainActivity.java:632-636 | with no sink nothing happens; with a sink, exactly one snapshot of the active controller is pushed |
| MediaBridge.UpdateActiveMediaController | android/app/src/main/java/me/efesser/flauncher/MainActivity.java:469-509 | the old controller is unregistered first and no other controller is; the new active controller is the first resolved one, or none; the only registration is on the new active controller, where the callback ends up alone; at most one push, last, when a sink is set; the session listener is never touched |
| MediaBridge.Initialize | android/app/src/main/java/me/efesser/flauncher/MainActivity.java:444-465 | the first refresh runs: the active controller is the first resolved one or none, the callback is registered on it and nowhere else, and nothing is pushed because there is no sink yet |
| MediaBridge.OnActiveSessionsChanged | android/app/src/main/java/me/efesser/flauncher/MainActivity.java:448-450 | a session-list change refreshes the tracker only while the session listener is registered |
| MediaBridge.OnControllerChanged | android/app/src/main/java/me/efesser/flauncher/MainActivity.java:452-462 | a playback or metadata change notifies only if that controller carries the callback, and never changes state |
| MediaBridge.OnListen | android/app/src/main/java/me/efesser/flauncher/MainActivity.java:640-661 | the sink is replaced; the listener is registered with the component, else null, else not at all, and that registration is the only effect before the push; exactly one current snapshot is pushed to the new sink, last |
| MediaBridge.OnCancel | android/app/src/main/java/me/efesser/flauncher/MainActivity.java:663-677 | the sink is cleared and the listener removed; the callback is removed but the active controller stays set; the effects are exactly the listener removal followed by the active controller's unregistration, if any |
| MediaBridge.RunPreservesValid | android/app/src/main/java/me/efesser/flauncher/MainActivity.java:469-677 | every interleaving of events keeps the callback on the active controller or nowhere, and keeps the listener registered only with a sink |
| MediaBridge.ReachableStatesValid | android/app/src/main/java/me/efesser/flauncher/MainActivity.java:444-677 | every state reachable after initialisation satisfies that invariant |
| MediaBridge.CallbackReportsItsController | android/app/src/main/java/me/efesser/flauncher/MainActivity.java:452-462 | in a valid state a firing callback pushes the snapshot of the controller that fired it |
| MediaBridge.CancelThenRefresh | android/app/src/main/java/me/efesser/flauncher/MainActivity.java:471-474 | after onCancel, the next refresh's unregister is a no-op, and the callback still ends up on the new active controller only |
| MediaBridge.ResubscribeLeavesControllerSilent | android/app/src/main/java/me/efesser/flauncher/MainActivity.java:640-677 | after cancel then listen, the old active controller is kept but its changes push nothing |
| MediaBridge.SecondListenReplacesSink | android/app/src/main/java/me/efesser/flauncher/MainActivity.java:632-642 | after a second onListen the sink is the second one, and every later notification or controller callback pushes to it only |
| MediaBridge.SubscribeThenSessionStarts | android/app/src/main/java/me/efesser/flauncher/MainActivity.java:469-563 | subscribing with no session pushes {hasActiveSession: false}; a playing session with play and pause capabilities then pushes availableActions [play, pause] |

## Left out

- Thread pool and `ExecutorCompletionService` mechanics (MainActivity.java:125-152, 198). Evaluation is sequential. The completion order is a parameter: any permutation of the submitted tasks. A task whose `future.get()` throws is a member of a `failing` set, so two identical tasks throw alike.
- A failing category query. The list stays null and `tvActivitiesInfo.size()` throws. The model takes both query results as lists.
- Icon and banner loading and PNG encoding (`getApplicationBanner`, `getApplicationIcon`, `drawableToByteArray`, `drawableToBitmap`). These are graphics library calls.
- Intent-launch wrappers (`tryStartActivity`, `launchActivityFromAction`, `launchApp`, `openSettings`, `openWifiSettings`, `openAppInfo`, `uninstallApp`, `startAmbientMode`) and `isDefaultLauncher`, `checkForGetContentAvailability`, `applicationExists`. Each is one OS call whose answer depends on framework exceptions.
- `getActiveNetworkInformation`. It delegates to `NetworkUtils`, which is not part of this model.
- The Flutter method and event channel wiring (MainActivity.java:84-122). This is transport. Snapshot keys are a datatype, and `Snapshot.KeyName` gives the string each key is sent under.
- `Build.VERSION.SDK_INT` branches. API level Lollipop or later is assumed throughout.
- A null `mediaSessionManager` in MainActivity. It comes from `getSystemService`, and the model assumes it is present.
- Label and version lookups, resolveActivityInfo and PlaybackState. They are opaque inputs: a label in the activity, a version map, an optional resolved activity, and a playback-state value.
- A null `versionName` from a found package. Versions are plain strings.
- A null action string passed to `sendMediaAction`. The switch would throw on it, and the model's action is always a string.
- Real `MediaController` callback-thread concurrency. The source has no locking. Events are an interleaving of atomic calls.
- Inventory.BuildAppMap: exceptions thrown by `loadLabel` are not modelled inside the builder. They appear only as the task's membership in `failing`.
