/**
 * The policy store: the app's key/value preferences, the restriction
 * decision and the unlock window (utils/PreferenceManager.kt).
 *
 * Each field holds what the corresponding Kotlin property getter returns;
 * assigning a field is the property setter, so a getter always reads back
 * what the setter last wrote. A freshly constructed store is one with no
 * stored entries, where every getter falls back to its default.
 */
module Preferences {

  /** The application's own package name (its accessibility and notification services run under it). */
  const OwnPackage: string := "com.example.parentalcontrol"

  /** A named group of packages; the times are display strings such as "09:00". */
  datatype AppGroup = AppGroup(
    name: string,
    packageNames: set<string>,
    startTime: string,
    endTime: string,
    isEnabled: bool)

  datatype BlockEvent = BlockEvent(packageName: string, timestamp: int)

  datatype CapturedNotification = CapturedNotification(
    packageName: string,
    title: string,
    content: string,
    timestamp: int)

  /** A protection session; the source stores the duration next to the two end points. */
  datatype DetailedSession = DetailedSession(startTime: int, endTime: int, durationMs: int)

  /** Some enabled group lists `p` (the reference reading of the `any` in isAppRestricted). */
  ghost predicate ListedByEnabledGroup(groups: seq<AppGroup>, p: string) {
    exists i :: 0 <= i < |groups| && groups[i].isEnabled && p in groups[i].packageNames
  }

  /** Kotlin's `groups.any { it.isEnabled && it.packageNames.contains(p) }`, scanning from the front. */
  function AnyEnabledGroupLists(groups: seq<AppGroup>, p: string): (b: bool)
    ensures b <==> ListedByEnabledGroup(groups, p)
  {
    if groups == [] then false
    else if groups[0].isEnabled && p in groups[0].packageNames then true
    else
      var b := AnyEnabledGroupLists(groups[1..], p);
      assert ListedByEnabledGroup(groups[1..], p) ==> ListedByEnabledGroup(groups, p) by {
        if ListedByEnabledGroup(groups[1..], p) {
          var i :| 0 <= i < |groups[1..]| && groups[1..][i].isEnabled && p in groups[1..][i].packageNames;
          assert groups[i + 1] == groups[1..][i];
        }
      }
      assert ListedByEnabledGroup(groups, p) ==> ListedByEnabledGroup(groups[1..], p) by {
        if ListedByEnabledGroup(groups, p) {
          var i :| 0 <= i < |groups| && groups[i].isEnabled && p in groups[i].packageNames;
          assert i != 0;
          assert groups[1..][i - 1] == groups[i];
        }
      }
      b
  }

  /**
   * isAppRestricted: `p` is restricted individually or through an enabled
   * group that lists it. The groups' start and end times are not consulted.
   */
  function Restricted(restrictedApps: set<string>, groups: seq<AppGroup>, p: string): (b: bool)
    ensures b <==> p in restrictedApps || ListedByEnabledGroup(groups, p)
  {
    p in restrictedApps || AnyEnabledGroupLists(groups, p)
  }

  /** A group that is disabled, or does not list `p`, never affects whether `p` is restricted. */
  lemma IrrelevantGroup(apps: set<string>, before: seq<AppGroup>, g: AppGroup, after: seq<AppGroup>, p: string)
    requires !g.isEnabled || p !in g.packageNames
    ensures Restricted(apps, before + [g] + after, p) == Restricted(apps, before + after, p)
  {
    var all, rest := before + [g] + after, before + after;
    if ListedByEnabledGroup(all, p) {
      var i :| 0 <= i < |all| && all[i].isEnabled && p in all[i].packageNames;
      if i < |before| {
        assert rest[i] == all[i];
      } else {
        assert i > |before|;
        assert rest[i - 1] == all[i];
      }
    }
    if ListedByEnabledGroup(rest, p) {
      var i :| 0 <= i < |rest| && rest[i].isEnabled && p in rest[i].packageNames;
      if i < |before| {
        assert all[i] == rest[i];
      } else {
        assert all[i + 1] == rest[i];
      }
    }
  }

  /** Changing one group's start and end times never changes the decision. */
  lemma ScheduleIgnored(apps: set<string>, groups: seq<AppGroup>, k: nat, start: string, end: string, p: string)
    requires k < |groups|
    ensures Restricted(apps, groups[k := groups[k].(startTime := start, endTime := end)], p)
         == Restricted(apps, groups, p)
  {
    var retimed := groups[k := groups[k].(startTime := start, endTime := end)];
    if ListedByEnabledGroup(groups, p) {
      var i :| 0 <= i < |groups| && groups[i].isEnabled && p in groups[i].packageNames;
      assert retimed[i].isEnabled && p in retimed[i].packageNames;
    }
    if ListedByEnabledGroup(retimed, p) {
      var i :| 0 <= i < |retimed| && retimed[i].isEnabled && p in retimed[i].packageNames;
      assert groups[i].isEnabled && p in groups[i].packageNames;
    }
  }

  /** The restricted set after toggleAppRestriction(p): only `p`'s membership flips. */
  function Toggled(apps: set<string>, p: string): (r: set<string>)
    ensures p in r <==> p !in apps
    ensures forall q :: q != p ==> (q in r <==> q in apps)
  {
    if p in apps then apps - {p} else apps + {p}
  }

  /** Toggling the same package twice gives back the original set. */
  lemma ToggleTwice(apps: set<string>, p: string)
    ensures Toggled(Toggled(apps, p), p) == apps
  {
  }

  /** isCurrentlyUnlocked at time `now`: strictly before the expiry. */
  function Unlocked(unlockExpiration: int, now: int): (b: bool)
    ensures b <==> now < unlockExpiration
  {
    now < unlockExpiration
  }

  /** With the default expiry of 0 the store is never unlocked at a non-negative time. */
  lemma DefaultNeverUnlocked(now: int)
    requires now >= 0
    ensures !Unlocked(0, now)
  {
  }

  class PreferenceManager {
    var isFirstLaunch: bool
    var isLocked: bool
    var unlockExpiration: int
    var isServiceRunning: bool
    var lastServiceStartTime: int
    var isStrictMode: bool
    var restrictedApps: set<string>
    var appGroups: seq<AppGroup>
    var blockHistory: seq<BlockEvent>
    var capturedNotifications: seq<CapturedNotification>
    var detailedSessions: seq<DetailedSession>

    /** A store with no entries: every getter returns its default. */
    constructor ()
      ensures isFirstLaunch && isLocked && unlockExpiration == 0
      ensures !isServiceRunning && lastServiceStartTime == 0 && !isStrictMode
      ensures restrictedApps == {} && appGroups == [] && blockHistory == []
      ensures capturedNotifications == [] && detailedSessions == []
    {
      isFirstLaunch, isLocked, unlockExpiration := true, true, 0;
      isServiceRunning, lastServiceStartTime, isStrictMode := false, 0, false;
      restrictedApps, appGroups, blockHistory := {}, [], [];
      capturedNotifications, detailedSessions := [], [];
    }

    /** Adds `p` to the restricted set when absent, removes it when present. */
    method ToggleAppRestriction(p: string)
      modifies this`restrictedApps
      ensures restrictedApps == Toggled(old(restrictedApps), p)
    {
      var current := restrictedApps;
      if p in current {
        current := current - {p};
      } else {
        current := current + {p};
      }
      restrictedApps := current;
    }

    function IsAppRestricted(p: string): (b: bool)
      reads this
      ensures b == Restricted(restrictedApps, appGroups, p)
    {
      p in restrictedApps || AnyEnabledGroupLists(appGroups, p)
    }

    /** Appends one captured notification stamped `now`; nothing is deduplicated or dropped. */
    method AddCapturedNotification(p: string, title: string, content: string, now: int)
      modifies this`capturedNotifications
      ensures capturedNotifications == old(capturedNotifications) + [CapturedNotification(p, title, content, now)]
    {
      var current := capturedNotifications;
      current := current + [CapturedNotification(p, title, content, now)];
      capturedNotifications := current;
    }

    /** Records that `packageName` was blocked at `now` by appending one event. */
    method AddBlockEvent(packageName: string, now: int)
      modifies this`blockHistory
      ensures blockHistory == old(blockHistory) + [BlockEvent(packageName, now)]
    {
      blockHistory := blockHistory + [BlockEvent(packageName, now)];
    }

    function IsCurrentlyUnlocked(now: int): (b: bool)
      reads this
      ensures b == Unlocked(unlockExpiration, now)
      ensures b <==> now < unlockExpiration
    {
      now < unlockExpiration
    }
  }
}
