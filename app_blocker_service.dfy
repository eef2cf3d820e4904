/**
 * The accessibility service's blocking decision (services/AppBlockerService.kt):
 * an ordered chain of short-circuit rules applied to every accessibility
 * event, and the effects it performs when an app is blocked.
 *
 * The platform is reduced to its inputs and outputs: the permission checks
 * become one boolean, the clock a `now` parameter, the active window's
 * node tree a value of `Node`, and going home, recording a block and
 * launching the lock screen become `Effect`s.
 */
module AppBlocker {
  import opened Options
  import opened Text
  import opened Preferences

  const SystemUiPackage: string := "com.android.systemui"
  const SettingsPackage: string := "com.android.settings"
  const PackageInstaller: string := "com.android.packageinstaller"
  const GooglePackageInstaller: string := "com.google.android.packageinstaller"

  /** The label recorded in the block history when uninstall protection fires. */
  const UninstallProtectionLabel: string := "Uninstall Protection"

  /** Words that identify this app on a settings or installer screen. */
  const AppMentions: seq<string> := ["parental control", "com.example.parentalcontrol"]

  /** Words that indicate an attempt to deactivate or remove an app. */
  const DeactivationKeywords: seq<string> :=
    ["deactivate", "uninstall", "force stop", "clear data", "delete", "remove"]

  /** An accessibility node: its text, its content description and its (possibly null) children. */
  datatype Node = Node(text: Option<string>, contentDescription: Option<string>, children: seq<Option<Node>>)

  datatype EventType = WindowStateChanged | WindowContentChanged | OtherEventType(code: int)

  datatype AccessibilityEvent = AccessibilityEvent(packageName: Option<string>, eventType: EventType)

  /** What the service does to the outside world, in order. */
  datatype Effect = GoHome | RecordBlock(entry: string) | LaunchLockScreen(blockedPackage: string)

  /** onServiceConnected: the moment the accessibility service connects is stored as the session start. */
  method OnServiceConnected(prefs: PreferenceManager, now: int)
    modifies prefs`lastServiceStartTime
    ensures prefs.lastServiceStartTime == now
  {
    prefs.lastServiceStartTime := now;
  }

  /** The text of `nd` and of its subtree, as findAllText builds it. */
  function NodeText(nd: Node): string
    decreases nd, 1
  {
    nd.text.OrElse("") + nd.contentDescription.OrElse("") + ChildrenText(nd, |nd.children|)
  }

  /** The contribution of the first `k` children of `nd`: " " and the child's text, per non-null child. */
  function ChildrenText(nd: Node, k: nat): string
    requires k <= |nd.children|
    decreases nd, 0, k
  {
    if k == 0 then ""
    else
      ChildrenText(nd, k - 1) +
      match nd.children[k - 1]
      case None => ""
      case Some(c) => " " + NodeText(c)
  }

  /** findAllText on a possibly null node. */
  function AllText(node: Option<Node>): string {
    match node
    case None => ""
    case Some(nd) => NodeText(nd)
  }

  /**
   * findAllText: appends the node's text, its content description, then a
   * space and the text of each non-null child in index order.
   */
  method FindAllText(node: Option<Node>) returns (r: string)
    ensures r == AllText(node)
    decreases node
  {
    if node.None? {
      return "";
    }
    var nd := node.value;
    var sb := nd.text.OrElse("");
    sb := sb + nd.contentDescription.OrElse("");
    var i := 0;
    while i < |nd.children|
      invariant 0 <= i <= |nd.children|
      invariant sb == nd.text.OrElse("") + nd.contentDescription.OrElse("") + ChildrenText(nd, i)
    {
      var child := nd.children[i];
      if child.Some? {
        assert child.value < nd;
        var childText := FindAllText(child);
        sb := sb + " " + childText;
      }
      i := i + 1;
    }
    r := sb;
  }

  /** A child's text appears in its parent's text, after the parent's own text. */
  lemma {:induction false} ChildTextIncluded(nd: Node, k: nat, j: nat)
    requires j < k <= |nd.children| && nd.children[j].Some?
    ensures Contains(ChildrenText(nd, k), NodeText(nd.children[j].value))
  {
    var c := NodeText(nd.children[j].value);
    if j == k - 1 {
      var pre := ChildrenText(nd, k - 1) + " ";
      assert ChildrenText(nd, k) == pre + c;
      assert ChildrenText(nd, k)[|pre|..|pre| + |c|] == c;
      assert IsAt(ChildrenText(nd, k), c, |pre|);
    } else {
      ChildTextIncluded(nd, k - 1, j);
      var i: nat :| i <= |ChildrenText(nd, k - 1)| && IsAt(ChildrenText(nd, k - 1), c, i);
      var s := ChildrenText(nd, k - 1);
      var t := ChildrenText(nd, k);
      assert t[..|s|] == s;
      assert t[i..i + |c|] == s[i..i + |c|];
      assert IsAt(t, c, i);
    }
  }

  /** Some word of `words` occurs in `text`. */
  predicate MentionsAny(text: string, words: seq<string>) {
    exists w :: w in words && Contains(text, w)
  }

  /** Uninstall protection's test on the lowercased screen text: it names this app and a deactivation word. */
  predicate UninstallAttempt(uiText: string) {
    MentionsAny(uiText, AppMentions) && MentionsAny(uiText, DeactivationKeywords)
  }

  /**
   * shouldBlockApp: never this app or the system UI; settings only once
   * every permission is granted; in strict mode settings and both package
   * installers always; otherwise whatever the policy store says.
   */
  function ShouldBlockApp(prefs: PreferenceManager, p: string, permissionsGranted: bool): (b: bool)
    reads prefs
    ensures p == OwnPackage || p == SystemUiPackage ==> !b
    ensures p == SettingsPackage && !permissionsGranted ==> !b
    ensures prefs.isStrictMode && p in {PackageInstaller, GooglePackageInstaller} ==> b
    ensures prefs.isStrictMode && p == SettingsPackage && permissionsGranted ==> b
    ensures p != OwnPackage && p != SystemUiPackage && !(p == SettingsPackage && !permissionsGranted) &&
            !(prefs.isStrictMode && p in {SettingsPackage, PackageInstaller, GooglePackageInstaller}) ==>
              b == prefs.IsAppRestricted(p)
  {
    if p == OwnPackage then false
    else if p == SystemUiPackage then false
    else if p == SettingsPackage && !permissionsGranted then false
    else if prefs.isStrictMode && (p == SettingsPackage || p == PackageInstaller || p == GooglePackageInstaller) then true
    else prefs.IsAppRestricted(p)
  }

  /** The two window events that standard blocking looks at. */
  predicate IsWindowEvent(t: EventType) {
    t == WindowStateChanged || t == WindowContentChanged
  }

  /**
   * onAccessibilityEvent as a decision: the effects, in order, that one
   * event causes. `root` is the active window's root node.
   */
  function Decide(prefs: PreferenceManager, event: AccessibilityEvent, permissionsGranted: bool,
                  now: int, root: Option<Node>): (effects: seq<Effect>)
    reads prefs
    ensures effects != [] ==> event.packageName.Some? && event.packageName != Some(OwnPackage) &&
                              permissionsGranted && !prefs.IsCurrentlyUnlocked(now)
    ensures effects != [] ==> |effects| >= 2 && effects[|effects| - 1] == LaunchLockScreen(event.packageName.value)
  {
    match event.packageName
    case None => []
    case Some(p) =>
      if p == OwnPackage then []
      else if !permissionsGranted then []
      else if prefs.IsCurrentlyUnlocked(now) then []
      else if prefs.isStrictMode && root.Some? && UninstallAttempt(Lowercase(AllText(root))) then
        [GoHome, RecordBlock(UninstallProtectionLabel), LaunchLockScreen(p)]
      else if IsWindowEvent(event.eventType) && ShouldBlockApp(prefs, p, permissionsGranted) then
        [RecordBlock(p), LaunchLockScreen(p)]
      else []
  }

  /** The block events that `effects` append to the history at time `now`. */
  function Recorded(effects: seq<Effect>, now: int): (r: seq<BlockEvent>)
    ensures |r| <= |effects|
    ensures forall e :: e in r ==> e.timestamp == now && RecordBlock(e.packageName) in effects
    ensures (forall i :: 0 <= i < |effects| ==> !effects[i].RecordBlock?) ==> r == []
  {
    if effects == [] then []
    else
      (match effects[0]
       case RecordBlock(e) => [BlockEvent(e, now)]
       case _ => []) + Recorded(effects[1..], now)
  }

  /** Rules 1-3: this app's own events, missing permissions and an active unlock never block anything. */
  lemma BypassesComeFirst(prefs: PreferenceManager, event: AccessibilityEvent, granted: bool, now: int, root: Option<Node>)
    requires event.packageName == Some(OwnPackage) || !granted || prefs.IsCurrentlyUnlocked(now)
    ensures Decide(prefs, event, granted, now, root) == []
  {
  }

  /**
   * Uninstall protection fires exactly when the earlier rules let the event
   * through, strict mode is on, there is a window and its lowercased text
   * names this app and a deactivation word.
   */
  lemma UninstallProtectionIff(prefs: PreferenceManager, event: AccessibilityEvent, granted: bool, now: int, root: Option<Node>)
    ensures var effects := Decide(prefs, event, granted, now, root);
      (|effects| > 0 && effects[0] == GoHome) <==>
        (event.packageName.Some? && event.packageName.value != OwnPackage && granted &&
         !prefs.IsCurrentlyUnlocked(now) && prefs.isStrictMode && root.Some? &&
         UninstallAttempt(Lowercase(AllText(root))))
  {
  }

  /**
   * Standard blocking: once the bypasses pass and uninstall protection does
   * not fire, `p` is blocked exactly for a window event when shouldBlockApp
   * holds, and the block is recorded before the lock screen is launched.
   */
  lemma StandardBlocking(prefs: PreferenceManager, p: string, t: EventType, granted: bool, now: int, root: Option<Node>)
    requires p != OwnPackage && granted && !prefs.IsCurrentlyUnlocked(now)
    requires !(prefs.isStrictMode && root.Some? && UninstallAttempt(Lowercase(AllText(root))))
    ensures var effects := Decide(prefs, AccessibilityEvent(Some(p), t), granted, now, root);
      effects == (if IsWindowEvent(t) && ShouldBlockApp(prefs, p, granted)
                  then [RecordBlock(p), LaunchLockScreen(p)] else [])
  {
  }

  /** Every lock screen launch is preceded by a recorded block event. */
  lemma RecordBeforeLaunch(prefs: PreferenceManager, event: AccessibilityEvent, granted: bool, now: int, root: Option<Node>, j: nat)
    requires j < |Decide(prefs, event, granted, now, root)|
    requires Decide(prefs, event, granted, now, root)[j].LaunchLockScreen?
    ensures exists i :: 0 <= i < j && Decide(prefs, event, granted, now, root)[i].RecordBlock?
  {
    var effects := Decide(prefs, event, granted, now, root);
    assert effects[j - 1].RecordBlock?;
  }

  /**
   * An event that causes anything records exactly one block event, stamped
   * with the event's time: the uninstall-protection label when it sent the
   * user home, else the blocked package.
   */
  lemma OneRecordPerBlock(prefs: PreferenceManager, event: AccessibilityEvent, granted: bool, now: int, root: Option<Node>)
    ensures var effects := Decide(prefs, event, granted, now, root);
      Recorded(effects, now) ==
        if effects == [] then []
        else [BlockEvent(if effects[0] == GoHome then UninstallProtectionLabel else event.packageName.value, now)]
  {
    var effects := Decide(prefs, event, granted, now, root);
    if |effects| == 3 {
      assert effects[1].RecordBlock? && effects[2].LaunchLockScreen?;
      assert effects[2..][1..] == [];
      assert effects[1..][1..] == effects[2..];
    } else if |effects| == 2 {
      assert effects[0].RecordBlock? && effects[1].LaunchLockScreen?;
      assert Recorded(effects[1..], now) == [] by {
        assert effects[1..][1..] == [];
      }
    }
  }

  /**
   * onAccessibilityEvent: applies the rule chain in the source's order,
   * records the block in the store and returns the effects performed.
   */
  method OnAccessibilityEvent(prefs: PreferenceManager, event: AccessibilityEvent, permissionsGranted: bool,
                              now: int, root: Option<Node>) returns (effects: seq<Effect>)
    modifies prefs`blockHistory
    ensures effects == old(Decide(prefs, event, permissionsGranted, now, root))
    ensures prefs.blockHistory == old(prefs.blockHistory) + Recorded(effects, now)
  {
    effects := [];
    if event.packageName.None? {
      return;
    }
    var p := event.packageName.value;
    if p == OwnPackage {
      return;
    }
    if !permissionsGranted {
      return;
    }
    if prefs.IsCurrentlyUnlocked(now) {
      return;
    }
    if prefs.isStrictMode && root.Some? {
      var uiText := FindAllText(root);
      uiText := Lowercase(uiText);
      if UninstallAttempt(uiText) {
        prefs.AddBlockEvent(UninstallProtectionLabel, now);
        effects := [GoHome, RecordBlock(UninstallProtectionLabel), LaunchLockScreen(p)];
        assert Recorded(effects[2..], now) == [] by {
          assert effects[2..][1..] == [];
        }
        assert Recorded(effects[1..], now) == [BlockEvent(UninstallProtectionLabel, now)] by {
          assert effects[1..][1..] == effects[2..];
        }
        return;
      }
    }
    if IsWindowEvent(event.eventType) && ShouldBlockApp(prefs, p, permissionsGranted) {
      prefs.AddBlockEvent(p, now);
      effects := [RecordBlock(p), LaunchLockScreen(p)];
      assert Recorded(effects[1..], now) == [] by {
        assert effects[1..][1..] == [];
      }
    }
  }
}
