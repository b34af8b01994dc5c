/** The application inventory built by MainActivity.getApplications: two
    launcher-category queries merged with tv precedence, one record built per
    surviving candidate, records collected in completion order, and a
    system-settings entry appended when neither query produced one. */
module Inventory {
  import opened Wrappers

  /** Package of the tv settings app, looked for among tv (leanback) activities. */
  const TV_SETTINGS_PACKAGE: string := "com.android.tv.settings"
  /** Package of the phone settings app, looked for among general activities. */
  const SETTINGS_PACKAGE: string := "com.android.settings"
  /** Android's Settings.ACTION_SETTINGS intent action. */
  const ACTION_SETTINGS: string := "android.settings.SETTINGS"

  /** An activity returned by a category query: owning package and label. */
  datatype Activity = Activity(packageName: string, appLabel: string)

  /** Version names the package manager knows; a package that is absent
      makes getPackageInfo throw NameNotFoundException. */
  type Versions = map<string, string>

  /** One catalog entry, the fields of the map buildAppMap returns; `action`
      is None exactly when the map has no "action" key. */
  datatype AppRecord = AppRecord(
    name: string,
    packageName: string,
    version: string,
    sideloaded: bool,
    action: Option<string>)

  /** A submitted buildAppMap task: the activity and its sideloaded flag. */
  datatype Task = Task(activity: Activity, sideloaded: bool)

  /** The record for one activity; a failed version lookup yields "". */
  function BuildAppMap(a: Activity, sideloaded: bool, action: Option<string>, versions: Versions): (r: AppRecord)
    ensures r.packageName == a.packageName && r.name == a.appLabel
    ensures r.sideloaded == sideloaded
    ensures r.action == action
    ensures a.packageName !in versions ==> r.version == ""
    ensures a.packageName in versions ==> r.version == versions[a.packageName]
  {
    AppRecord(a.appLabel, a.packageName, Lookup(versions, a.packageName).GetOr(""), sideloaded, action)
  }

  /** The record a submitted task produces when it does not throw. */
  function Build(t: Task, versions: Versions): AppRecord {
    BuildAppMap(t.activity, t.sideloaded, None, versions)
  }

  /** Records of a task sequence, position by position. */
  function BuildAll(ts: seq<Task>, versions: Versions): seq<AppRecord> {
    seq(|ts|, i requires 0 <= i < |ts| => Build(ts[i], versions))
  }

  /** Some activity of the list belongs to package p. */
  predicate HasPackage(activities: seq<Activity>, p: string) {
    exists i :: 0 <= i < |activities| && activities[i].packageName == p
  }

  /** Every tv activity becomes a task with sideloaded = false. */
  function TvTasks(tv: seq<Activity>): seq<Task> {
    seq(|tv|, i requires 0 <= i < |tv| => Task(tv[i], false))
  }

  /** General activities whose package no tv activity has, as sideloaded
      tasks, in list order; duplicates inside the general list are kept. */
  function SideloadedTasks(general: seq<Activity>, tv: seq<Activity>): seq<Task> {
    if |general| == 0 then []
    else
      var last := general[|general| - 1];
      SideloadedTasks(general[..|general| - 1], tv)
        + (if HasPackage(tv, last.packageName) then [] else [Task(last, true)])
  }

  /** The tasks getApplications submits, in submission order. */
  function Submitted(tv: seq<Activity>, general: seq<Activity>): seq<Task> {
    TvTasks(tv) + SideloadedTasks(general, tv)
  }

  /** The flag the two scanning loops compute, stated directly; note the
      asymmetry: each settings package is looked for in one list only. */
  predicate SettingsPresent(tv: seq<Activity>, general: seq<Activity>) {
    HasPackage(tv, TV_SETTINGS_PACKAGE) || HasPackage(general, SETTINGS_PACKAGE)
  }

  /** Records taken from the completion service, in completion order; a task
      that throws is skipped. */
  function Collected(completion: seq<Task>, failing: set<Task>, versions: Versions): seq<AppRecord> {
    if |completion| == 0 then []
    else
      var last := completion[|completion| - 1];
      Collected(completion[..|completion| - 1], failing, versions)
        + (if last in failing then [] else [Build(last, versions)])
  }

  /** The settings record appended after collection, if any. */
  function SettingsFallback(tv: seq<Activity>, general: seq<Activity>, settings: Option<Activity>,
                            versions: Versions): (r: seq<AppRecord>)
    ensures |r| <= 1
    ensures |r| == 1 <==> !SettingsPresent(tv, general) && settings.Some?
    ensures |r| == 1 ==> r[0].packageName == settings.value.packageName
    ensures |r| == 1 ==> !r[0].sideloaded && r[0].action == Some(ACTION_SETTINGS)
  {
    if SettingsPresent(tv, general) then []
    else match settings
      case Some(a) => [BuildAppMap(a, false, Some(ACTION_SETTINGS), versions)]
      case None => []
  }

  /** The first loop of getApplications: one non-sideloaded task per tv
      activity, and the sticky check for the tv settings package. */
  method ScanTv(tv: seq<Activity>) returns (submitted: seq<Task>, settingsPresent: bool)
    ensures submitted == TvTasks(tv)
    ensures settingsPresent <==> HasPackage(tv, TV_SETTINGS_PACKAGE)
  {
    settingsPresent := false;
    submitted := [];
    var i := 0;
    while i < |tv|
      invariant 0 <= i <= |tv|
      invariant submitted == TvTasks(tv[..i])
      invariant settingsPresent <==> HasPackage(tv[..i], TV_SETTINGS_PACKAGE)
    {
      if !settingsPresent {
        settingsPresent := tv[i].packageName == TV_SETTINGS_PACKAGE;
      }
      HasPackageSnoc(tv[..i], tv[i], TV_SETTINGS_PACKAGE);
      assert tv[..i + 1] == tv[..i] + [tv[i]];
      submitted := submitted + [Task(tv[i], false)];
      i := i + 1;
    }
    assert tv[..i] == tv;
  }

  /** The inner loop of the second scan: stops at the first tv activity of
      the same package. */
  method IsDuplicate(tv: seq<Activity>, packageName: string) returns (duplicate: bool)
    ensures duplicate <==> HasPackage(tv, packageName)
  {
    var nonDuplicate := true;
    var k := 0;
    while k < |tv| && nonDuplicate
      invariant 0 <= k <= |tv|
      invariant nonDuplicate <==> !HasPackage(tv[..k], packageName)
      invariant !nonDuplicate ==> HasPackage(tv, packageName)
    {
      HasPackageSnoc(tv[..k], tv[k], packageName);
      assert tv[..k + 1] == tv[..k] + [tv[k]];
      if tv[k].packageName == packageName {
        nonDuplicate := false;
      }
      k := k + 1;
    }
    assert nonDuplicate ==> tv[..k] == tv;
    duplicate := !nonDuplicate;
  }

  /** The second loop of getApplications: the phone settings package is
      checked on every general activity before the duplicate test, and only
      activities whose package no tv activity has are submitted. */
  method ScanGeneral(tv: seq<Activity>, general: seq<Activity>, submitted0: seq<Task>, present0: bool)
    returns (submitted: seq<Task>, settingsPresent: bool)
    ensures submitted == submitted0 + SideloadedTasks(general, tv)
    ensures settingsPresent <==> present0 || HasPackage(general, SETTINGS_PACKAGE)
  {
    submitted := submitted0;
    settingsPresent := present0;
    var j := 0;
    while j < |general|
      invariant 0 <= j <= |general|
      invariant submitted == submitted0 + SideloadedTasks(general[..j], tv)
      invariant settingsPresent <==> present0 || HasPackage(general[..j], SETTINGS_PACKAGE)
    {
      var candidate := general[j];
      if !settingsPresent {
        settingsPresent := candidate.packageName == SETTINGS_PACKAGE;
      }
      HasPackageSnoc(general[..j], candidate, SETTINGS_PACKAGE);
      var duplicate := IsDuplicate(tv, candidate.packageName);
      assert general[..j + 1][..j] == general[..j];
      if !duplicate {
        submitted := submitted + [Task(candidate, true)];
      }
      assert general[..j + 1] == general[..j] + [candidate];
      j := j + 1;
    }
    assert general[..j] == general;
  }

  /** The draining loop: exactly appCount takes, a throwing task skipped but
      still counted. */
  method Collect(completion: seq<Task>, failing: set<Task>, versions: Versions, appCount: nat)
    returns (apps: seq<AppRecord>, takes: nat)
    requires appCount == |completion|
    ensures takes == appCount
    ensures apps == Collected(completion, failing, versions)
  {
    var remaining := appCount;
    apps := [];
    takes := 0;
    while remaining > 0
      invariant takes + remaining == appCount
      invariant apps == Collected(completion[..takes], failing, versions)
    {
      var t := completion[takes];
      assert completion[..takes + 1][..takes] == completion[..takes];
      if t !in failing {
        apps := apps + [Build(t, versions)];
      }
      takes := takes + 1;
      remaining := remaining - 1;
    }
    assert completion[..takes] == completion;
  }

  /** getApplications with the executor run sequentially. `completion` is
      the order in which the completion service hands out the submitted
      tasks (any permutation of them); `failing` are the tasks whose
      future.get() throws. `takes` counts completionService.take() calls. */
  method GetApplications(tv: seq<Activity>, general: seq<Activity>, versions: Versions,
                         settings: Option<Activity>, completion: seq<Task>, failing: set<Task>)
    returns (apps: seq<AppRecord>, takes: nat)
    requires multiset(completion) == multiset(Submitted(tv, general))
    ensures takes == |Submitted(tv, general)| == |tv| + |SideloadedTasks(general, tv)|
    ensures apps == Collected(completion, failing, versions) + SettingsFallback(tv, general, settings, versions)
    ensures |apps| <= takes + 1
    ensures !SettingsPresent(tv, general) && settings.Some? ==>
              apps[|apps| - 1] == BuildAppMap(settings.value, false, Some(ACTION_SETTINGS), versions)
  {
    var submitted, settingsPresent := ScanTv(tv);
    submitted, settingsPresent := ScanGeneral(tv, general, submitted, settingsPresent);
    assert |completion| == |multiset(completion)| == |submitted|;
    apps, takes := Collect(completion, failing, versions, |submitted|);
    CollectedLength(completion, failing, versions);

    if !settingsPresent {
      match settings
      case Some(a) =>
        apps := apps + [BuildAppMap(a, false, Some(ACTION_SETTINGS), versions)];
      case None =>
    }
  }

  /** getApplication: the leanback launch intent is tried first and the plain
      launch intent only when there is none; a resolved activity yields a
      record that is never marked sideloaded. An intent is modelled by the
      activity it resolves to (None: resolveActivityInfo returned null);
      None as the result is the empty map. */
  function GetApplication(leanbackIntent: Option<Option<Activity>>, launchIntent: Option<Option<Activity>>,
                          versions: Versions): (r: Option<AppRecord>)
    ensures r.Some? <==>
              (leanbackIntent.Some? && leanbackIntent.value.Some?)
              || (leanbackIntent.None? && launchIntent.Some? && launchIntent.value.Some?)
    ensures r.Some? ==> !r.value.sideloaded && r.value.action.None?
    ensures r.Some? && leanbackIntent.Some? ==> r.value == BuildAppMap(leanbackIntent.value.value, false, None, versions)
    ensures r.Some? && leanbackIntent.None? ==> r.value == BuildAppMap(launchIntent.value.value, false, None, versions)
  {
    var intent := if leanbackIntent.Some? then leanbackIntent else launchIntent;
    match intent
    case Some(Some(a)) => Some(BuildAppMap(a, false, None, versions))
    case _ => None
  }

  // ---------------------------------------------------------------------
  // Properties of the merge, the collection and the settings detection

  /** Appending one activity adds exactly its own package to HasPackage. */
  lemma HasPackageSnoc(s: seq<Activity>, a: Activity, p: string)
    ensures HasPackage(s + [a], p) <==> HasPackage(s, p) || a.packageName == p
  {
    if HasPackage(s, p) {
      var i :| 0 <= i < |s| && s[i].packageName == p;
      assert (s + [a])[i] == s[i];
    }
    if a.packageName == p {
      assert (s + [a])[|s|] == a;
    }
    if HasPackage(s + [a], p) {
      var i :| 0 <= i < |s + [a]| && (s + [a])[i].packageName == p;
      if i < |s| {
        assert s[i] == (s + [a])[i];
      }
    }
  }

  /** At most one record per completed task: the output never outgrows the
      number of takes, and a throwing task only lowers the count. */
  lemma {:induction false} CollectedLength(completion: seq<Task>, failing: set<Task>, versions: Versions)
    ensures |Collected(completion, failing, versions)| <= |completion|
    ensures (forall k :: 0 <= k < |completion| ==> completion[k] !in failing) ==>
              |Collected(completion, failing, versions)| == |completion|
  {
    if |completion| > 0 {
      var init := completion[..|completion| - 1];
      CollectedLength(init, failing, versions);
      if forall k :: 0 <= k < |completion| ==> completion[k] !in failing {
        assert forall k :: 0 <= k < |init| ==> init[k] == completion[k];
      }
    }
  }

  /** With no failing task the collection is exactly the records of the
      completion order. */
  lemma {:induction false} CollectedWithoutFailures(completion: seq<Task>, failing: set<Task>, versions: Versions)
    requires forall k :: 0 <= k < |completion| ==> completion[k] !in failing
    ensures Collected(completion, failing, versions) == BuildAll(completion, versions)
  {
    if |completion| > 0 {
      var init := completion[..|completion| - 1];
      assert forall k :: 0 <= k < |init| ==> init[k] == completion[k];
      CollectedWithoutFailures(init, failing, versions);
    }
  }

  /** Building records commutes with concatenation. */
  lemma BuildAllAppend(a: seq<Task>, b: seq<Task>, versions: Versions)
    ensures BuildAll(a + b, versions) == BuildAll(a, versions) + BuildAll(b, versions)
  {
  }

  /** Reordering the tasks reorders the records: a permutation of tasks gives
      a permutation of records. */
  lemma {:induction false} BuildAllPermutation(a: seq<Task>, b: seq<Task>, versions: Versions)
    requires multiset(a) == multiset(b)
    ensures multiset(BuildAll(a, versions)) == multiset(BuildAll(b, versions))
    decreases |a|
  {
    if |a| == 0 {
      assert |b| == |multiset(b)| == 0;
    } else {
      var x := a[0];
      assert x in multiset(b);
      var i :| 0 <= i < |b| && b[i] == x;
      var rest := b[..i] + b[i + 1..];
      assert b == b[..i] + [x] + b[i + 1..];
      assert a == [x] + a[1..];
      assert multiset(a) == multiset{x} + multiset(a[1..]);
      assert multiset(b) == multiset(b[..i]) + multiset{x} + multiset(b[i + 1..]);
      assert multiset(rest) == multiset(b[..i]) + multiset(b[i + 1..]);
      assert multiset(a[1..]) == multiset(a) - multiset{x};
      assert multiset(rest) == multiset(b) - multiset{x};
      BuildAllPermutation(a[1..], rest, versions);
      BuildAllAppend([x], a[1..], versions);
      BuildAllAppend(b[..i], b[i + 1..], versions);
      BuildAllAppend(b[..i] + [x], b[i + 1..], versions);
      BuildAllAppend(b[..i], [x], versions);
    }
  }

  /** Completeness: when no task throws, the collected records are a
      permutation of one record per submitted task, and their number is
      |tv| plus the number of general activities whose package is not in tv. */
  lemma CompleteWithoutFailures(tv: seq<Activity>, general: seq<Activity>, completion: seq<Task>,
                                failing: set<Task>, versions: Versions)
    requires multiset(completion) == multiset(Submitted(tv, general))
    requires forall k :: 0 <= k < |completion| ==> completion[k] !in failing
    ensures multiset(Collected(completion, failing, versions)) == multiset(BuildAll(Submitted(tv, general), versions))
    ensures |Collected(completion, failing, versions)| == |tv| + |SideloadedTasks(general, tv)|
  {
    CollectedWithoutFailures(completion, failing, versions);
    BuildAllPermutation(completion, Submitted(tv, general), versions);
    assert |completion| == |multiset(completion)| == |Submitted(tv, general)|;
  }

  /** How many tv tasks equal t: one per occurrence of t's activity in tv. */
  lemma {:induction false} TvTasksMultiplicity(tv: seq<Activity>, t: Task)
    ensures multiset(TvTasks(tv))[t] == if t.sideloaded then 0 else multiset(tv)[t.activity]
  {
    if |tv| > 0 {
      var init := tv[..|tv| - 1];
      TvTasksMultiplicity(init, t);
      assert TvTasks(tv) == TvTasks(init) + [Task(tv[|tv| - 1], false)];
      assert tv == init + [tv[|tv| - 1]];
    }
  }

  /** How many sideloaded tasks equal t: every occurrence of a general
      activity whose package no tv activity has, and nothing else. */
  lemma {:induction false} SideloadedTasksMultiplicity(general: seq<Activity>, tv: seq<Activity>, t: Task)
    ensures multiset(SideloadedTasks(general, tv))[t] ==
              if t.sideloaded && !HasPackage(tv, t.activity.packageName) then multiset(general)[t.activity] else 0
  {
    if |general| > 0 {
      var init := general[..|general| - 1];
      SideloadedTasksMultiplicity(init, tv, t);
      assert general == init + [general[|general| - 1]];
    }
  }

  /** The merge rule, counted: a non-sideloaded task occurs once per
      occurrence of its activity in the tv list; a sideloaded task occurs
      once per occurrence in the general list when no tv activity shares its
      package, and never otherwise. Duplicates inside one list survive. */
  lemma SubmittedMultiplicity(tv: seq<Activity>, general: seq<Activity>, t: Task)
    ensures multiset(Submitted(tv, general))[t] ==
              if !t.sideloaded then multiset(tv)[t.activity]
              else if HasPackage(tv, t.activity.packageName) then 0
              else multiset(general)[t.activity]
  {
    TvTasksMultiplicity(tv, t);
    SideloadedTasksMultiplicity(general, tv, t);
  }

  /** The merge rule as membership, both directions. */
  lemma SubmittedMembership(tv: seq<Activity>, general: seq<Activity>, a: Activity, sideloaded: bool)
    ensures Task(a, sideloaded) in Submitted(tv, general) <==>
              if sideloaded then a in general && !HasPackage(tv, a.packageName) else a in tv
  {
    SubmittedMultiplicity(tv, general, Task(a, sideloaded));
  }

  /** Tv precedence: no sideloaded task shares a package with any tv
      activity, so a package found by both queries is only ever reported
      with sideloaded = false. */
  lemma TvPrecedence(tv: seq<Activity>, general: seq<Activity>, i: nat)
    requires i < |Submitted(tv, general)|
    requires Submitted(tv, general)[i].sideloaded
    ensures !HasPackage(tv, Submitted(tv, general)[i].activity.packageName)
  {
    var t := Submitted(tv, general)[i];
    SubmittedMembership(tv, general, t.activity, true);
  }

  /** Duplicates inside one list are kept: two tv activities of one package
      give two tasks of that package. */
  lemma DuplicatesKept(a: Activity, b: Activity)
    requires a.packageName == b.packageName
    ensures Submitted([a, b], []) == [Task(a, false), Task(b, false)]
    ensures Submitted([a, b], [])[0].activity.packageName == Submitted([a, b], [])[1].activity.packageName
  {
  }

  /** A package in both lists is kept once, from the tv list; a package only
      in the general list is kept as sideloaded. */
  lemma MergeExample()
    ensures Submitted([Activity("com.a", "A")], [Activity("com.a", "A-alt"), Activity("com.b", "B")])
            == [Task(Activity("com.a", "A"), false), Task(Activity("com.b", "B"), true)]
  {
    var tv := [Activity("com.a", "A")];
    assert HasPackage(tv, "com.a") by { assert tv[0].packageName == "com.a"; }
    assert !HasPackage(tv, "com.b");
    var general := [Activity("com.a", "A-alt"), Activity("com.b", "B")];
    assert general[..1] == [Activity("com.a", "A-alt")];
    assert general[..1][..0] == [];
    assert SideloadedTasks(general[..1], tv) == [];
    assert SideloadedTasks(general, tv) == [Task(Activity("com.b", "B"), true)];
    assert TvTasks(tv) == [Task(Activity("com.a", "A"), false)];
  }
}
