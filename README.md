# Parental control core, modelled in Dafny

This project models the core of an Android parental-control app. The app
has four parts that this model covers:

- A **policy store** (`PreferenceManager`). It holds the individually
  restricted packages, the restriction groups, the strict-mode flag, the
  NFC unlock expiry, the block history and the captured notifications.
- An **accessibility service** (`AppBlockerService`). It reacts to every
  window event with an ordered chain of rules:
  1. this app's own events pass;
  2. if any permission is missing, everything passes (setup mode);
  3. during an NFC unlock, everything passes;
  4. in strict mode, uninstall protection scans the window's text;
  5. otherwise the standard blocking decision applies.

  When an app is blocked, the service records a block event and launches
  the lock screen.
- A **notification listener** (`NotificationBlockerService`). It captures
  and cancels the notifications of restricted apps.
- **Counters, timers and screens** around them:
  - the activity counter that hides and shows the floating timer;
  - the floating timer's h:m:s display;
  - the usage screen's duration format and per-day totals;
  - the protection switch;
  - the group editor;
  - the onboarding pager and its highlighted titles;
  - the main activity's lock-screen flag, NFC unlock and screen routing.

## How the model is built

Each Kotlin class whose fields change becomes a Dafny `class` with those
fields. Its methods are proved against pure functions:

- `AppBlocker.OnAccessibilityEvent` returns exactly `Decide(...)`.
- `PreferenceManager.IsAppRestricted` is exactly `Restricted(...)`.
- The group editor's callbacks produce exactly `SetEnabled`, `Without` and `Saved`.

The properties are then proved about those functions as lemmas.

Store values are fields. Assigning a field plays the role of the property
setter, so every getter reads back the last value written. The platform
is reduced to its inputs and outputs:

- The clock is a `now` parameter.
- The permission checks (`areAllPermissionsGranted`, `canDrawOverlays`)
  are boolean parameters.
- The active window is a `Node` tree.
- Going home, recording a block and launching the lock screen are
  `Effect` values.
- The overlay service's start requests are `OverlayRequest` values.

Kotlin's truncating `/` and `%` and `Long.toInt()` are written out in
`JvmInt`. `%02d` and `%02x` are written out in `Text.Pad2` and
`Activity.HexByte`.

## Model

| member | source | states |
|---|---|---|
| JvmInt.Quot | app/src/main/java/com/example/parentalcontrol/services/TimerOverlayService.kt:37-40 | Kotlin `/` rounds toward zero: the remainder lies in [0, b) for a non-negative dividend and in (-b, 0] for a negative one |
| JvmInt.Rem | app/src/main/java/com/example/parentalcontrol/services/TimerOverlayService.kt:42 | Kotlin `%` pairs with `/` so that a == b*q + r, and r takes the dividend's sign |
| JvmInt.NonNegativeDivision | app/src/main/java/com/example/parentalcontrol/ui/screens/UsageScreen.kt:151-153 | on non-negative operands Kotlin's `/` and `%` agree with Euclidean division |
| JvmInt.ToInt | app/src/main/java/com/example/parentalcontrol/services/TimerOverlayService.kt:38 | `Long.toInt()` lands in the 32-bit range, is congruent to its input modulo 2^32, and is the identity on that range |
| Text.Search | app/src/main/java/com/example/parentalcontrol/ui/screens/OnboardingScreen.kt:132 | the result is the first occurrence at or after `from`, or -1 when there is none |
| Text.IndexOf | app/src/main/java/com/example/parentalcontrol/ui/screens/OnboardingScreen.kt:132 | `indexOf` gives an occurrence with no earlier one, and is negative exactly when the text does not contain the pattern |
| Text.Lowercase | app/src/main/java/com/example/parentalcontrol/services/AppBlockerService.kt:47 | `lowercase()` keeps the length, maps each character independently and leaves no upper-case ASCII letter |
| Text.LowercaseIdempotent | app/src/main/java/com/example/parentalcontrol/services/AppBlockerService.kt:47 | lower-casing twice equals lower-casing once |
| Text.Decimal | app/src/main/java/com/example/parentalcontrol/ui/screens/GroupManagementScreen.kt:155 | the decimal rendering is all digits, has one digit exactly below 10, has no leading zero for n > 0, and reads back as the number |
| Text.Pad2 | app/src/main/java/com/example/parentalcontrol/ui/screens/GroupManagementScreen.kt:155 | `%02d` gives at least two characters. For n ≥ 0 they are digits reading back as n, exactly two below 100, with no leading zero from 10 up. For n < 0 it is '-' followed by the digits of -n with no leading zero |
| Text.Pad2Digits | app/src/main/java/com/example/parentalcontrol/ui/screens/GroupManagementScreen.kt:155 | below 100, the two `%02d` digits are the tens and the units |
| Preferences.AnyEnabledGroupLists | app/src/main/java/com/example/parentalcontrol/utils/PreferenceManager.kt:121 | the front-to-back `any` scan holds exactly when some enabled group lists the package |
| Preferences.Restricted | app/src/main/java/com/example/parentalcontrol/utils/PreferenceManager.kt:120-122 | a package is restricted iff it is individually restricted or listed by an enabled group |
| Preferences.IrrelevantGroup | app/src/main/java/com/example/parentalcontrol/utils/PreferenceManager.kt:121 | a group that is disabled, or does not list the package, can be removed without changing the decision |
| Preferences.ScheduleIgnored | app/src/main/java/com/example/parentalcontrol/utils/PreferenceManager.kt:120-122 | changing a group's start and end times never changes the decision |
| Preferences.Toggled | app/src/main/java/com/example/parentalcontrol/utils/PreferenceManager.kt:66-74 | the toggled set flips the package's membership and keeps every other package's |
| Preferences.ToggleTwice | app/src/main/java/com/example/parentalcontrol/utils/PreferenceManager.kt:66-74 | toggling the same package twice restores the set |
| Preferences.Unlocked | app/src/main/java/com/example/parentalcontrol/utils/PreferenceManager.kt:131-133 | unlocked exactly when `now` is strictly before the expiry, so never at the expiry instant or after it |
| Preferences.DefaultNeverUnlocked | app/src/main/java/com/example/parentalcontrol/utils/PreferenceManager.kt:46-48 | with the default expiry 0, no non-negative time is unlocked |
| Preferences.PreferenceManager.constructor | app/src/main/java/com/example/parentalcontrol/utils/PreferenceManager.kt:38-118 | an empty store reads the getters' defaults: first launch, locked, expiry 0, service off, start 0, strict off, no restricted apps, empty lists |
| Preferences.PreferenceManager.ToggleAppRestriction | app/src/main/java/com/example/parentalcontrol/utils/PreferenceManager.kt:66-74 | the stored set becomes `Toggled` of the old one; nothing else changes |
| Preferences.PreferenceManager.IsAppRestricted | app/src/main/java/com/example/parentalcontrol/utils/PreferenceManager.kt:120-122 | agrees with `Restricted` on the stored set and groups |
| Preferences.PreferenceManager.AddCapturedNotification | app/src/main/java/com/example/parentalcontrol/utils/PreferenceManager.kt:124-129 | appends exactly one notification stamped `now`, and keeps the earlier ones in order |
| Preferences.PreferenceManager.AddBlockEvent | app/src/main/java/com/example/parentalcontrol/services/AppBlockerService.kt:77 | appends exactly one block event stamped `now` |
| Preferences.PreferenceManager.IsCurrentlyUnlocked | app/src/main/java/com/example/parentalcontrol/utils/PreferenceManager.kt:131-133 | true exactly when `now` is strictly before the stored expiry, which is `Unlocked` of it |
| AppBlocker.OnServiceConnected | app/src/main/java/com/example/parentalcontrol/services/AppBlockerService.kt:22-26 | connecting the service stores `now` as the session start |
| AppBlocker.NodeText | app/src/main/java/com/example/parentalcontrol/services/AppBlockerService.kt:83-96 | no contract of its own; the recursive text of a node. `FindAllText` is proved equal to it and `ChildTextIncluded` proves each child's text occurs in it |
| AppBlocker.ChildrenText | app/src/main/java/com/example/parentalcontrol/services/AppBlockerService.kt:88-93 | no contract of its own; the children's part of `NodeText`, the loop invariant of `FindAllText` |
| AppBlocker.AllText | app/src/main/java/com/example/parentalcontrol/services/AppBlockerService.kt:83-96 | no contract of its own; `FindAllText` on a possibly null node, proved equal to the method |
| AppBlocker.FindAllText | app/src/main/java/com/example/parentalcontrol/services/AppBlockerService.kt:83-96 | the loop builds exactly the recursive text of the tree: own text, description, then " " and the text of each non-null child |
| AppBlocker.ChildTextIncluded | app/src/main/java/com/example/parentalcontrol/services/AppBlockerService.kt:88-93 | every non-null child's text occurs inside its parent's collected text |
| AppBlocker.MentionsAny | app/src/main/java/com/example/parentalcontrol/services/AppBlockerService.kt:50-58 | no contract of its own; the `contains` disjunctions over a word list |
| AppBlocker.UninstallAttempt | app/src/main/java/com/example/parentalcontrol/services/AppBlockerService.kt:50-60 | no contract of its own; the screen names this app and a deactivation word. `UninstallProtectionIff` proves going home happens exactly when it holds |
| AppBlocker.ShouldBlockApp | app/src/main/java/com/example/parentalcontrol/services/AppBlockerService.kt:98-114 | never blocks this app or the system UI. Does not block settings while permissions are missing. In strict mode it blocks both installers, and settings once permissions are granted. In every other case, strict mode off included, the answer is the store's `isAppRestricted` |
| AppBlocker.Decide | app/src/main/java/com/example/parentalcontrol/services/AppBlockerService.kt:28-81 | any effect needs a package other than this app, every permission and no active unlock; a non-empty decision has at least two effects and ends with the lock screen for the event's package |
| AppBlocker.Recorded | app/src/main/java/com/example/parentalcontrol/services/AppBlockerService.kt:65-77 | at most one history entry per effect; each is stamped `now` and names the entry of a `RecordBlock` effect in the list; none when no effect records a block |
| AppBlocker.BypassesComeFirst | app/src/main/java/com/example/parentalcontrol/services/AppBlockerService.kt:28-41 | own-package events, missing permissions and an active unlock cause no effect at all |
| AppBlocker.UninstallProtectionIff | app/src/main/java/com/example/parentalcontrol/services/AppBlockerService.kt:43-68 | going home happens iff the bypasses pass, strict mode is on, a window exists and its lower-cased text names this app and a deactivation word |
| AppBlocker.StandardBlocking | app/src/main/java/com/example/parentalcontrol/services/AppBlockerService.kt:72-80 | past the earlier rules, the package is blocked exactly on a window event that `shouldBlockApp` accepts: record, then lock screen |
| AppBlocker.RecordBeforeLaunch | app/src/main/java/com/example/parentalcontrol/services/AppBlockerService.kt:64-78 | every lock-screen launch is preceded by a recorded block |
| AppBlocker.OneRecordPerBlock | app/src/main/java/com/example/parentalcontrol/services/AppBlockerService.kt:64-78 | an event with any effect records exactly one block event stamped with the event time, naming "Uninstall Protection" when it sent the user home and the blocked package otherwise; other events record none |
| AppBlocker.OnAccessibilityEvent | app/src/main/java/com/example/parentalcontrol/services/AppBlockerService.kt:28-81 | the effects performed are those of the rule chain, and the history grows by exactly the recorded events |
| NotificationBlocker.CaptureOf | app/src/main/java/com/example/parentalcontrol/services/NotificationBlockerService.kt:24-28 | the saved entry carries the package and `now`, with "No Title" and "No Content" for missing extras |
| NotificationBlocker.Intercepts | app/src/main/java/com/example/parentalcontrol/services/NotificationBlockerService.kt:20-23 | a notification is intercepted iff it is from another app that the store restricts |
| NotificationBlocker.OnNotificationPosted | app/src/main/java/com/example/parentalcontrol/services/NotificationBlockerService.kt:16-33 | the notification is cancelled, by its key, exactly when intercepted, and exactly then one capture is appended |
| GroupManagement.SetEnabled | app/src/main/java/com/example/parentalcontrol/ui/screens/GroupManagementScreen.kt:53-59 | same length; every group with that name gets the new flag, all others are unchanged |
| GroupManagement.Without | app/src/main/java/com/example/parentalcontrol/ui/screens/GroupManagementScreen.kt:67-70 | the result holds exactly the groups different from the deleted one |
| GroupManagement.WithoutConcat | app/src/main/java/com/example/parentalcontrol/ui/screens/GroupManagementScreen.kt:68 | deleting distributes over concatenation, so the survivors keep their order |
| GroupManagement.WithoutAbsent | app/src/main/java/com/example/parentalcontrol/ui/screens/GroupManagementScreen.kt:68 | deleting a group that is not in the list leaves the list unchanged |
| GroupManagement.ReplaceNamed | app/src/main/java/com/example/parentalcontrol/ui/screens/GroupManagementScreen.kt:130 | same length; every group with the edited name is replaced, all others are unchanged |
| GroupManagement.InitialDraft | app/src/main/java/com/example/parentalcontrol/ui/screens/GroupManagementScreen.kt:83-86 | no contract of its own; `NewGroupDefaults` and `UntouchedEditIsNoOp` prove what saving its fields does |
| GroupManagement.Saved | app/src/main/java/com/example/parentalcontrol/ui/screens/GroupManagementScreen.kt:124-136 | an empty name changes nothing. Creating appends an enabled group, even under a duplicate name. Editing replaces same-named groups and keeps the edited group's flag |
| GroupManagement.NewGroupDefaults | app/src/main/java/com/example/parentalcontrol/ui/screens/GroupManagementScreen.kt:83-86 | saving a fresh dialog appends a 09:00–17:00 group with no apps |
| GroupManagement.UntouchedEditIsNoOp | app/src/main/java/com/example/parentalcontrol/ui/screens/GroupManagementScreen.kt:83-86 | saving an edit dialog without changes leaves the list as it was, when the groups sharing its name are that group |
| GroupManagement.TimeLabel | app/src/main/java/com/example/parentalcontrol/ui/screens/GroupManagementScreen.kt:155 | at least five characters with ':' right after the hour field; `TimeLabelShape` reads picker times back |
| GroupManagement.TimeLabelShape | app/src/main/java/com/example/parentalcontrol/ui/screens/GroupManagementScreen.kt:154-155 | a picked time renders as five characters "HH:mm" whose digits read back as the hour and minute |
| GroupManagement.GroupManagementScreen.constructor | app/src/main/java/com/example/parentalcontrol/ui/screens/GroupManagementScreen.kt:27-29 | the screen opens on the stored groups with no dialog |
| GroupManagement.GroupManagementScreen.OnEnabledChange | app/src/main/java/com/example/parentalcontrol/ui/screens/GroupManagementScreen.kt:53-59 | the screen list becomes `SetEnabled` of the old one, and the store matches it |
| GroupManagement.GroupManagementScreen.OnDelete | app/src/main/java/com/example/parentalcontrol/ui/screens/GroupManagementScreen.kt:67-70 | the screen list becomes `Without` of the old one, and the store matches it |
| GroupManagement.GroupManagementScreen.OnAddClick | app/src/main/java/com/example/parentalcontrol/ui/screens/GroupManagementScreen.kt:34-37 | opens the dialog in create mode with an empty name and 09:00–17:00 |
| GroupManagement.GroupManagementScreen.OnEditClick | app/src/main/java/com/example/parentalcontrol/ui/screens/GroupManagementScreen.kt:61-64 | opens the dialog on the group's own fields |
| GroupManagement.GroupManagementScreen.OnNameChange | app/src/main/java/com/example/parentalcontrol/ui/screens/GroupManagementScreen.kt:93-98 | the name field, enabled only when creating, takes the typed name |
| GroupManagement.GroupManagementScreen.OnStartTimePicked | app/src/main/java/com/example/parentalcontrol/ui/screens/GroupManagementScreen.kt:102 | the start label becomes the picked time's "%02d:%02d" |
| GroupManagement.GroupManagementScreen.OnEndTimePicked | app/src/main/java/com/example/parentalcontrol/ui/screens/GroupManagementScreen.kt:104 | the end label becomes the picked time's "%02d:%02d" |
| GroupManagement.GroupManagementScreen.OnAppClick | app/src/main/java/com/example/parentalcontrol/ui/screens/GroupManagementScreen.kt:112-113 | clicking an app flips only that app's selection |
| GroupManagement.GroupManagementScreen.OnConfirm | app/src/main/java/com/example/parentalcontrol/ui/screens/GroupManagementScreen.kt:124-136 | with an empty name nothing changes and the dialog stays open. Otherwise the list becomes `Saved`, the store matches it and the dialog closes |
| GroupManagement.GroupManagementScreen.OnDismissRequest | app/src/main/java/com/example/parentalcontrol/ui/screens/GroupManagementScreen.kt:89 | dismissing only closes the dialog |
| GroupManagement.GroupManagementScreen.OnCancel | app/src/main/java/com/example/parentalcontrol/ui/screens/GroupManagementScreen.kt:139-142 | Cancel closes the dialog and forgets the edited group |
| Activity.HexDigit | app/src/main/java/com/example/parentalcontrol/MainActivity.kt:98 | every hex digit produced is 0-9 or a-f |
| Activity.HexValue | app/src/main/java/com/example/parentalcontrol/MainActivity.kt:98 | a hex digit's value is below 16 and maps back to the same digit |
| Activity.Unsigned | app/src/main/java/com/example/parentalcontrol/MainActivity.kt:98 | `%x` sees a signed byte as the value in [0, 256) congruent to it |
| Activity.HexByte | app/src/main/java/com/example/parentalcontrol/MainActivity.kt:98 | `%02x` of a byte is two hex digits whose value is the unsigned byte |
| Activity.HexId | app/src/main/java/com/example/parentalcontrol/MainActivity.kt:98 | the tag id's hex string is all hex digits, two per byte |
| Activity.ParseHexId | app/src/main/java/com/example/parentalcontrol/MainActivity.kt:98 | the reader of a tag's hex id gives one byte per two hex digits; `HexIdRoundTrip` proves it inverts `HexId` |
| Activity.HexIdRoundTrip | app/src/main/java/com/example/parentalcontrol/MainActivity.kt:98 | the tag bytes can be read back from the hex string |
| Activity.Route | app/src/main/java/com/example/parentalcontrol/MainActivity.kt:212-224 | the permission screen shows iff a permission is missing or Continue was not accepted. The lock screen shows iff past it the flag is set and there is no unlock |
| Activity.AfterContinue | app/src/main/java/com/example/parentalcontrol/MainActivity.kt:215-219 | Continue is accepted iff it was already, or every permission is granted |
| Activity.PermissionScreenHolds | app/src/main/java/com/example/parentalcontrol/MainActivity.kt:212-219 | with a permission missing, Continue never leaves the permission screen |
| Activity.MainActivity.constructor | app/src/main/java/com/example/parentalcontrol/MainActivity.kt:50 | a fresh activity holds its launch intent and no lock-screen flag |
| Activity.MainActivity.HandleIntent | app/src/main/java/com/example/parentalcontrol/MainActivity.kt:103-111 | the flag is the intent's EXTRA_LOCKED, false by default; a false flag is removed from the intent |
| Activity.MainActivity.OnCreate | app/src/main/java/com/example/parentalcontrol/MainActivity.kt:53-80 | `isLocked` is forced on when the expiry is 0. The intent is handled. The navigator starts on onboarding iff this is the first launch; the current intent loses a false EXTRA_LOCKED |
| Activity.MainActivity.OnResume | app/src/main/java/com/example/parentalcontrol/MainActivity.kt:114-116 | resuming re-reads the lock flag from the current intent, and a false EXTRA_LOCKED is removed from it |
| Activity.MainActivity.PerformUnlock | app/src/main/java/com/example/parentalcontrol/MainActivity.kt:150-155 | unlocked at every instant of the next five minutes and not at their end; the lock flag and extra are cleared |
| Activity.MainActivity.OnNewIntent | app/src/main/java/com/example/parentalcontrol/MainActivity.kt:82-101 | a tag is scanned iff the action is one of the three NFC discoveries and a tag is present. It is reported as its hex id and unlocks; any other intent leaves the expiry alone and sets the flag from the intent. The new intent becomes the current one, without EXTRA_LOCKED when its flag is false or a tag unlocked, so `onResume` re-reads it |
| Activity.MainActivity.FinishOnboarding | app/src/main/java/com/example/parentalcontrol/MainActivity.kt:180-183 | finishing onboarding clears the first-launch flag and shows the main screen |
| Activity.MainActivity.OnContinue | app/src/main/java/com/example/parentalcontrol/MainActivity.kt:215-219 | the Continue flag becomes `AfterContinue` of the old one |
| Activity.MainActivity.CurrentView | app/src/main/java/com/example/parentalcontrol/MainActivity.kt:179-224 | onboarding shows iff the navigator is on it. On the main screen the permission screen shows iff a permission is missing or Continue was not accepted. The lock screen shows iff on the main screen, past the permission screen, flagged and not unlocked |
| Activity.NoLockViewWhileUnlocked | app/src/main/java/com/example/parentalcontrol/MainActivity.kt:221 | while unlocked the lock screen never shows |
| TimerLifecycle.CountAfter | app/src/main/java/com/example/parentalcontrol/utils/TimerLifecycleObserver.kt:12-38 | a start adds one, a stop removes one, the other five callbacks change nothing |
| TimerLifecycle.Run | app/src/main/java/com/example/parentalcontrol/utils/TimerLifecycleObserver.kt:10-38 | the count after n callbacks lies between -n and n; `RunCountsStartsMinusStops` gives its exact value |
| TimerLifecycle.RunCountsStartsMinusStops | app/src/main/java/com/example/parentalcontrol/utils/TimerLifecycleObserver.kt:10-38 | after any sequence of callbacks the count is the number of starts minus the number of stops |
| TimerLifecycle.RunNonNegative | app/src/main/java/com/example/parentalcontrol/utils/TimerLifecycleObserver.kt:10-24 | if no prefix has more stops than starts, the count is non-negative after every prefix |
| TimerLifecycle.TimerLifecycleObserver.constructor | app/src/main/java/com/example/parentalcontrol/utils/TimerLifecycleObserver.kt:10 | the count starts at 0 |
| TimerLifecycle.TimerLifecycleObserver.OnActivityStarted | app/src/main/java/com/example/parentalcontrol/utils/TimerLifecycleObserver.kt:12-21 | the count goes up by one; HIDE is sent iff it was 0 before |
| TimerLifecycle.TimerLifecycleObserver.OnActivityStopped | app/src/main/java/com/example/parentalcontrol/utils/TimerLifecycleObserver.kt:23-32 | the count goes down by one; SHOW is sent iff it is 0 after |
| TimerLifecycle.TimerLifecycleObserver.OnOtherCallback | app/src/main/java/com/example/parentalcontrol/utils/TimerLifecycleObserver.kt:34-38 | the five other callbacks send nothing and keep the count |
| TimerOverlay.ReferenceStart | app/src/main/java/com/example/parentalcontrol/services/TimerOverlayService.kt:33-35 | the timer counts from the stored start when it is positive, otherwise from the service's creation time |
| TimerOverlay.ClockOf | app/src/main/java/com/example/parentalcontrol/services/TimerOverlayService.kt:37-42 | no contract of its own; `ClockFieldRanges`, `ClockSplit` and `ClockWrapsAtIntRange` state what it computes |
| TimerOverlay.ClockFieldRanges | app/src/main/java/com/example/parentalcontrol/services/TimerOverlayService.kt:37-42 | for any elapsed time, minutes and seconds are shown modulo 60 with the dividend's sign, so they lie strictly between -60 and 60; the hours stay within the 32-bit range |
| TimerOverlay.ClockText | app/src/main/java/com/example/parentalcontrol/services/TimerOverlayService.kt:42 | no contract of its own; `ClockTextShape` proves it reads back as the three fields and `ClockTextWrapsAtIntRange` shows the wrapped sign |
| TimerOverlay.ClockSplit | app/src/main/java/com/example/parentalcontrol/services/TimerOverlayService.kt:37-42 | below 2^31 elapsed seconds, minutes and seconds are in 0..59, hours are unbounded and h*3600 + m*60 + s == millis/1000 |
| TimerOverlay.ClockWrapsAtIntRange | app/src/main/java/com/example/parentalcontrol/services/TimerOverlayService.kt:38 | at 2^31 elapsed seconds, the `toInt()` truncation makes the seconds field -8 |
| TimerOverlay.ClockTextWrapsAtIntRange | app/src/main/java/com/example/parentalcontrol/services/TimerOverlayService.kt:42 | the displayed text then ends in "-8" |
| TimerOverlay.ClockTextShape | app/src/main/java/com/example/parentalcontrol/services/TimerOverlayService.kt:42 | the text reads back as hours digits, ':', two minute digits, ':', two second digits |
| TimerOverlay.TimerOverlayService.constructor | app/src/main/java/com/example/parentalcontrol/services/TimerOverlayService.kt:51-56 | a new service records its creation time and has no overlay, no text view and no pending tick |
| TimerOverlay.TimerOverlayService.ShowOverlay | app/src/main/java/com/example/parentalcontrol/services/TimerOverlayService.kt:77-103 | nothing happens without permission or with an overlay present. Otherwise the text view is bound, and the overlay and timer start iff adding the view succeeds |
| TimerOverlay.TimerOverlayService.HideOverlay | app/src/main/java/com/example/parentalcontrol/services/TimerOverlayService.kt:105-115 | afterwards there is no overlay and no pending tick, from any state |
| TimerOverlay.TimerOverlayService.OnStartCommand | app/src/main/java/com/example/parentalcontrol/services/TimerOverlayService.kt:58-75 | with protection off: hide, stop, not sticky, whatever the action. SHOW does exactly what `showOverlay` does: nothing without permission or with an overlay present, else the view is bound and the overlay and tick start iff adding the view succeeds. HIDE hides and stops. Another action changes nothing. Only SHOW can bind the text view |
| TimerOverlay.TimerOverlayService.Tick | app/src/main/java/com/example/parentalcontrol/services/TimerOverlayService.kt:30-47 | a bound text view shows the time elapsed since the reference start |
| TimerOverlay.TimerOverlayService.OnDestroy | app/src/main/java/com/example/parentalcontrol/services/TimerOverlayService.kt:117-120 | destroying the service removes the overlay |
| Usage.FieldsOf | app/src/main/java/com/example/parentalcontrol/ui/screens/UsageScreen.kt:151-153 | no contract of its own; the three `TimeUnit` conversions with truncating operators. `DurationSplit` gives their ranges and sum, and `AgreesWithOverlayClock` ties them to the timer |
| Usage.DurationSplit | app/src/main/java/com/example/parentalcontrol/ui/screens/UsageScreen.kt:150-153 | for ms ≥ 0, minutes and seconds are in 0..59 and h*3600 + m*60 + s == ms/1000 |
| Usage.FormatDuration | app/src/main/java/com/example/parentalcontrol/ui/screens/UsageScreen.kt:150-159 | the text has at least seven characters and ends in "s"; `FormatDurationShape` reads every field back from it |
| Usage.FormatDurationShape | app/src/main/java/com/example/parentalcontrol/ui/screens/UsageScreen.kt:154-158 | for ms ≥ 0 the text ends in two minute digits, "m ", two second digits and "s", reading back as those fields; the hour digits and "h " come first exactly when hours > 0, and the text is seven characters otherwise |
| Usage.Pad2Chars | app/src/main/java/com/example/parentalcontrol/ui/screens/UsageScreen.kt:155-157 | a `%02d` field holds only digits and a minus sign |
| Usage.HoursShownIff | app/src/main/java/com/example/parentalcontrol/ui/screens/UsageScreen.kt:154-158 | an "h" appears in the text iff the hours field is positive |
| Usage.UnderAnHour | app/src/main/java/com/example/parentalcontrol/ui/screens/UsageScreen.kt:156-157 | under an hour, the text is the seven characters "MMm SSs" |
| Usage.AgreesWithOverlayClock | app/src/main/java/com/example/parentalcontrol/ui/screens/UsageScreen.kt:150-153 | the usage screen and the floating timer show the same h, m and s for the same elapsed time |
| Usage.TotalDuration | app/src/main/java/com/example/parentalcontrol/ui/screens/UsageScreen.kt:90 | the sum of durations is non-negative when every duration is; `TotalDurationAppend` and `DayTotalsPartition` relate it to the groups |
| Usage.TotalDurationAppend | app/src/main/java/com/example/parentalcontrol/ui/screens/UsageScreen.kt:90 | `sumOf` over a concatenation is the sum of the two sums |
| Usage.SessionsOn | app/src/main/java/com/example/parentalcontrol/ui/screens/UsageScreen.kt:36-39 | a session is in a day's group iff it is stored and starts on that day; with `SessionsOnConcat` and `SessionsSplit`, the group is the stored order filtered by day, duplicates kept |
| Usage.SessionsNotOn | app/src/main/java/com/example/parentalcontrol/ui/screens/UsageScreen.kt:36-39 | a session is in the rest iff it is stored and starts on another day |
| Usage.SessionsOnConcat | app/src/main/java/com/example/parentalcontrol/ui/screens/UsageScreen.kt:36-39 | a day's group distributes over concatenation, so it keeps the stored order |
| Usage.SessionsNotOnConcat | app/src/main/java/com/example/parentalcontrol/ui/screens/UsageScreen.kt:36-39 | the other days' sessions distribute over concatenation too, in stored order |
| Usage.SessionsSplit | app/src/main/java/com/example/parentalcontrol/ui/screens/UsageScreen.kt:36-39 | every stored session lands in exactly one of the two groups, as many times as it is stored |
| Usage.DayTotalsPartition | app/src/main/java/com/example/parentalcontrol/ui/screens/UsageScreen.kt:89-90 | one day's total plus the other days' total is the total of all sessions |
| Usage.CurrentSessionDuration | app/src/main/java/com/example/parentalcontrol/ui/screens/UsageScreen.kt:42-51 | 0 unless the service is enabled with a positive start; then `now` minus the start, which is non-negative when the start is not in the future |
| Usage.UsageScreen.constructor | app/src/main/java/com/example/parentalcontrol/ui/screens/UsageScreen.kt:31-41 | the screen opens on the stored sessions with a zero running duration |
| Usage.UsageScreen.RefreshCurrentSession | app/src/main/java/com/example/parentalcontrol/ui/screens/UsageScreen.kt:42-51 | one refresh stores `CurrentSessionDuration` for `now` |
| Usage.UsageScreen.Clear | app/src/main/java/com/example/parentalcontrol/ui/screens/UsageScreen.kt:56-59 | Clear empties both the stored and the displayed sessions |
| Usage.UsageScreen.DayTotal | app/src/main/java/com/example/parentalcontrol/ui/screens/UsageScreen.kt:89-90 | a day's total is the total of all sessions minus the other days' total (by `DayTotalsPartition`), and 0 with no sessions |
| Home.AfterToggle | app/src/main/java/com/example/parentalcontrol/ui/screens/HomeScreen.kt:41-48 | the flag flips; turning on stamps `now`, and turning off keeps the old start time |
| Home.ToggleTwice | app/src/main/java/com/example/parentalcontrol/ui/screens/HomeScreen.kt:41-48 | two presses restore the flag; the start time is that of whichever press turned protection on |
| Home.HomeScreen.constructor | app/src/main/java/com/example/parentalcontrol/ui/screens/HomeScreen.kt:32 | the screen's flag is read from the store |
| Home.HomeScreen.OnToggle | app/src/main/java/com/example/parentalcontrol/ui/screens/HomeScreen.kt:41-48 | the screen and the store both take the new flag, and the stored pair becomes `AfterToggle` of the old one |
| Onboarding.FullTitle | app/src/main/java/com/example/parentalcontrol/ui/screens/OnboardingScreen.kt:130 | the full title is the first line, a newline, then the second line |
| Onboarding.TitleOf | app/src/main/java/com/example/parentalcontrol/ui/screens/OnboardingScreen.kt:129-147 | plain iff the highlight is absent, and then exactly the full title. Otherwise prefix + highlight + suffix is the full title and the span starts at the first occurrence |
| Onboarding.OpensSecondLine | app/src/main/java/com/example/parentalcontrol/ui/screens/OnboardingScreen.kt:132-143 | a highlight that opens the second line is found, at the latest at that line's start |
| Onboarding.EveryPageHighlighted | app/src/main/java/com/example/parentalcontrol/ui/screens/OnboardingScreen.kt:46-68 | each of the three pages gets its highlighted span |
| Onboarding.Indicators | app/src/main/java/com/example/parentalcontrol/ui/screens/OnboardingScreen.kt:177-178 | one indicator per page, selected exactly at the current page |
| Onboarding.ExactlyOneIndicator | app/src/main/java/com/example/parentalcontrol/ui/screens/OnboardingScreen.kt:177-178 | exactly one indicator is selected on a page in range |
| Onboarding.OnboardingPager.constructor | app/src/main/java/com/example/parentalcontrol/ui/screens/OnboardingScreen.kt:41 | the pager starts on page 0, not finished |
| Onboarding.OnboardingPager.OnNavButton | app/src/main/java/com/example/parentalcontrol/ui/screens/OnboardingScreen.kt:197-213 | Next advances only before the last page. Get Started finishes, only on the last page. The page stays in 0..lastIndex |

## Left out

- Android platform calls are inputs or outputs here, not modelled code:
  - permission queries (`Settings.Secure`, `AppOpsManager`, `DevicePolicyManager`, `canDrawOverlays`);
  - `startActivity` and `startService`;
  - `performGlobalAction`, `cancelNotification`;
  - NFC foreground dispatch;
  - `WindowManager.addView`/`removeView`;
  - `child.recycle()`.
- AppBlocker.OnAccessibilityEvent: the permission check is one boolean read per event. The source re-queries it at AppBlockerService.kt:62 and inside `shouldBlockApp` (AppBlockerService.kt:103). The model therefore does not capture a permission changing partway through one event.
- Gson encoding and SharedPreferences persistence are not modelled. The store is typed fields that read back what was last written.
- `addBlockEvent` is called by the accessibility service but is not defined in PreferenceManager.kt. It is modelled as a plain append stamped with `now`, like `addCapturedNotification`.
- The application's own package name is taken as the constant "com.example.parentalcontrol", the package declared by the sources.
- Text.Lowercase: covers ASCII letters only. Unicode case mapping is not modelled.
- Locale-dependent digits in `String.format` are not modelled; the default locale is assumed to use ASCII digits.
- Long overflow is not modelled: Kotlin `Long` values are unbounded integers. The one narrowing in the core, `toInt()` in the timer, is modelled exactly.
- Calendar-day grouping (`SimpleDateFormat`, time zone, descending sort) is not modelled. The day of a session is a function parameter, and the sorted display order is not modelled.
- Coroutine `delay` loops and `Handler.postDelayed` rescheduling are modelled as a single tick or refresh. The splash-screen delay is not modelled.
- Usage.UsageScreen.RefreshCurrentSession: the source checks "service enabled and start > 0" once, when the effect starts, and then keeps refreshing (UsageScreen.kt:42-51). The model re-checks the condition on every refresh, so it does not capture a refresh loop that outlives a change of that condition.
- Compose layout, animations, colours and the floating-point progress ring are not modelled.
- The onboarding pages' background images and the lock-screen UI are not modelled.
- The time picker's own dialog is not modelled; it supplies the hour and minute.
- The restriction groups' start and end times are never consulted by the decision in the code (see `Preferences.ScheduleIgnored`). No schedule-based blocking is modelled.
- There is no de-duplication, size cap or duplicate-name check on groups, history or notifications, because the code has none.
- TimerLifecycle.TimerLifecycleObserver: the Int counter is unbounded. 32-bit wrap-around after 2^31 unmatched starts is not modelled.
