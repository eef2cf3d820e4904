/**
 * The main activity (MainActivity.kt): the lock-screen flag carried by
 * intents, the NFC unlock, the tag-ID hex encoding and the choice of the
 * screen to show.
 */
module Activity {
  import opened Options
  import opened Preferences

  const ActionTagDiscovered: string := "android.nfc.action.TAG_DISCOVERED"
  const ActionNdefDiscovered: string := "android.nfc.action.NDEF_DISCOVERED"
  const ActionTechDiscovered: string := "android.nfc.action.TECH_DISCOVERED"

  /** An NFC scan unlocks the device for five minutes. */
  const UnlockDurationMs: int := 5 * 60 * 1000

  /** Kotlin's signed `Byte`. */
  type Byte = b: int | -128 <= b < 128

  /**
   * The parts of an intent the activity reads: its action, the boolean
   * "EXTRA_LOCKED" extra and the id of the NFC tag extra (null when absent).
   */
  datatype Intent = Intent(action: Option<string>, lockedExtra: Option<bool>, tagId: Option<seq<Byte>>)

  /** The navigator's two destinations (enum Screen). */
  datatype Screen = Onboarding | Main

  /** What is on screen. */
  datatype View = OnboardingView | PermissionView | LockView | TabsView

  predicate IsHexDigit(c: char) {
    '0' <= c <= '9' || 'a' <= c <= 'f'
  }

  /** The lower-case hex digit for `d`. */
  function HexDigit(d: int): (c: char)
    requires 0 <= d < 16
    ensures IsHexDigit(c)
  {
    if d < 10 then ('0' as int + d) as char else ('a' as int + d - 10) as char
  }

  function HexValue(c: char): (v: nat)
    requires IsHexDigit(c)
    ensures v < 16 && HexDigit(v) == c
  {
    if '0' <= c <= '9' then c as int - '0' as int else c as int - 'a' as int + 10
  }

  /** The byte as Java's `%x` sees it: negative values have 256 added. */
  function Unsigned(b: Byte): (u: nat)
    ensures u < 256 && (u - b) % 256 == 0
  {
    if b < 0 then b + 256 else b
  }

  /** `"%02x".format(b)`: two lower-case hex digits. */
  function HexByte(b: Byte): (r: string)
    ensures |r| == 2 && IsHexDigit(r[0]) && IsHexDigit(r[1])
    ensures 16 * HexValue(r[0]) + HexValue(r[1]) == Unsigned(b)
  {
    var u := Unsigned(b);
    [HexDigit(u / 16), HexDigit(u % 16)]
  }

  /** `id.joinToString("") { "%02x".format(it) }`: two hex digits per byte, no separator. */
  function HexId(bytes: seq<Byte>): (r: string)
    ensures |r| == 2 * |bytes|
    ensures forall i :: 0 <= i < |r| ==> IsHexDigit(r[i])
  {
    if bytes == [] then "" else HexByte(bytes[0]) + HexId(bytes[1..])
  }

  /** Reads a tag id back from its hex form. */
  function ParseHexId(s: string): (bytes: seq<Byte>)
    requires |s| % 2 == 0 && forall i :: 0 <= i < |s| ==> IsHexDigit(s[i])
    ensures |bytes| == |s| / 2
  {
    if s == [] then []
    else
      var u := 16 * HexValue(s[0]) + HexValue(s[1]);
      [if u >= 128 then u - 256 else u] + ParseHexId(s[2..])
  }

  /** The encoding loses nothing: the bytes can be read back from the hex string. */
  lemma {:induction false} HexIdRoundTrip(bytes: seq<Byte>)
    ensures ParseHexId(HexId(bytes)) == bytes
  {
    if bytes != [] {
      var s := HexId(bytes);
      assert s[..2] == HexByte(bytes[0]) && s[2..] == HexId(bytes[1..]);
      HexIdRoundTrip(bytes[1..]);
    }
  }

  /** The three NFC discovery actions. */
  predicate IsNfcAction(action: Option<string>) {
    action == Some(ActionTagDiscovered) || action == Some(ActionNdefDiscovered) ||
    action == Some(ActionTechDiscovered)
  }

  /** MainScreen's choice between the permission screen, the lock screen and the tabs. */
  function Route(allPermissionsGranted: bool, hasTappedContinue: bool, isBlocked: bool, isCurrentlyUnlocked: bool): (v: View)
    ensures v != OnboardingView
    ensures v == PermissionView <==> !allPermissionsGranted || !hasTappedContinue
    ensures v == LockView <==> allPermissionsGranted && hasTappedContinue && isBlocked && !isCurrentlyUnlocked
  {
    if !allPermissionsGranted || !hasTappedContinue then PermissionView
    else if isBlocked && !isCurrentlyUnlocked then LockView
    else TabsView
  }

  /** Whether Continue has been accepted after a tap: only with every permission granted. */
  function AfterContinue(allPermissionsGranted: bool, hasTappedContinue: bool): (tapped: bool)
    ensures tapped <==> hasTappedContinue || allPermissionsGranted
  {
    if allPermissionsGranted then true else hasTappedContinue
  }

  /** Continue never leads past the permission screen while a permission is missing. */
  lemma PermissionScreenHolds(tapped: bool, isBlocked: bool, unlocked: bool)
    ensures Route(false, AfterContinue(false, tapped), isBlocked, unlocked) == PermissionView
  {
  }

  class MainActivity {
    const prefs: PreferenceManager
    var intent: Intent
    var shouldShowLockScreen: bool
    var currentScreen: Screen
    var hasTappedContinue: bool

    /** The activity as the system creates it, holding the intent that started it. */
    constructor (prefs: PreferenceManager, launchIntent: Intent)
      ensures this.prefs == prefs && intent == launchIntent
      ensures !shouldShowLockScreen && !hasTappedContinue
    {
      this.prefs := prefs;
      intent := launchIntent;
      shouldShowLockScreen := false;
      currentScreen := Main;
      hasTappedContinue := false;
    }

    /** handleIntent: the lock flag is the intent's "EXTRA_LOCKED", false by default; a false flag is removed. */
    method HandleIntent()
      modifies this`shouldShowLockScreen, this`intent
      ensures shouldShowLockScreen == old(intent).lockedExtra.OrElse(false)
      ensures intent == if shouldShowLockScreen then old(intent) else old(intent).(lockedExtra := None)
    {
      var isLockedExtra := intent.lockedExtra.OrElse(false);
      if isLockedExtra {
        shouldShowLockScreen := true;
      } else {
        intent := intent.(lockedExtra := None);
        shouldShowLockScreen := false;
      }
    }

    /**
     * onCreate: `isLocked` is forced on when no unlock was ever granted,
     * the intent is handled and the navigator starts on onboarding exactly
     * at first launch.
     */
    method OnCreate()
      modifies prefs`isLocked, this`shouldShowLockScreen, this`intent, this`currentScreen
      ensures old(prefs.unlockExpiration) == 0 ==> prefs.isLocked
      ensures old(prefs.unlockExpiration) != 0 ==> prefs.isLocked == old(prefs.isLocked)
      ensures shouldShowLockScreen == old(intent).lockedExtra.OrElse(false)
      ensures intent == if shouldShowLockScreen then old(intent) else old(intent).(lockedExtra := None)
      ensures currentScreen == if prefs.isFirstLaunch then Onboarding else Main
    {
      if prefs.unlockExpiration == 0 {
        prefs.isLocked := true;
      }
      HandleIntent();
      currentScreen := if prefs.isFirstLaunch then Onboarding else Main;
    }

    /** onResume re-reads the lock flag from the current intent. */
    method OnResume()
      modifies this`shouldShowLockScreen, this`intent
      ensures shouldShowLockScreen == old(intent).lockedExtra.OrElse(false)
      ensures intent == if shouldShowLockScreen then old(intent) else old(intent).(lockedExtra := None)
    {
      HandleIntent();
    }

    /** performUnlock: unlocked for the next five minutes, lock screen flag cleared. */
    method PerformUnlock(now: int)
      modifies prefs`unlockExpiration, this`shouldShowLockScreen, this`intent
      ensures prefs.unlockExpiration == now + UnlockDurationMs
      ensures !shouldShowLockScreen && intent == old(intent).(lockedExtra := None)
      ensures forall t :: now <= t < now + UnlockDurationMs ==> prefs.IsCurrentlyUnlocked(t)
      ensures !prefs.IsCurrentlyUnlocked(now + UnlockDurationMs)
    {
      prefs.unlockExpiration := now + UnlockDurationMs;
      shouldShowLockScreen := false;
      intent := intent.(lockedExtra := None);
    }

    /**
     * onNewIntent: the intent is handled; for an NFC discovery carrying a
     * tag, the tag id is hex-encoded and the device is unlocked. Returns the
     * scanned tag id, if any.
     */
    method OnNewIntent(newIntent: Intent, now: int) returns (scanned: Option<string>)
      modifies this`intent, this`shouldShowLockScreen, prefs`unlockExpiration
      ensures scanned.Some? <==> IsNfcAction(newIntent.action) && newIntent.tagId.Some?
      ensures scanned.Some? ==> scanned.value == HexId(newIntent.tagId.value)
      ensures scanned.Some? ==> prefs.unlockExpiration == now + UnlockDurationMs && !shouldShowLockScreen
      ensures scanned.None? ==> prefs.unlockExpiration == old(prefs.unlockExpiration)
      ensures scanned.None? ==> shouldShowLockScreen == newIntent.lockedExtra.OrElse(false)
      ensures scanned.None? ==>
                intent == if newIntent.lockedExtra.OrElse(false) then newIntent else newIntent.(lockedExtra := None)
      ensures scanned.Some? ==> intent == newIntent.(lockedExtra := None)
    {
      intent := newIntent;
      HandleIntent();
      scanned := None;
      if IsNfcAction(newIntent.action) {
        if newIntent.tagId.Some? {
          var tagId := HexId(newIntent.tagId.value);
          scanned := Some(tagId);
          PerformUnlock(now);
        }
      }
    }

    /** Finishing onboarding clears the first-launch flag and moves to the main screen. */
    method FinishOnboarding()
      modifies prefs`isFirstLaunch, this`currentScreen
      ensures !prefs.isFirstLaunch && currentScreen == Main
    {
      prefs.isFirstLaunch := false;
      currentScreen := Main;
    }

    /** The permission screen's Continue button. */
    method OnContinue(allPermissionsGranted: bool)
      modifies this`hasTappedContinue
      ensures hasTappedContinue == AfterContinue(allPermissionsGranted, old(hasTappedContinue))
    {
      if allPermissionsGranted {
        hasTappedContinue := true;
      }
    }

    /** The view on screen at time `now`, given the permission state the screen last read. */
    function CurrentView(allPermissionsGranted: bool, now: int): (v: View)
      reads this, prefs
      ensures v == OnboardingView <==> currentScreen == Onboarding
      ensures currentScreen == Main ==> (v == PermissionView <==> !allPermissionsGranted || !hasTappedContinue)
      ensures v == LockView <==> currentScreen == Main && allPermissionsGranted && hasTappedContinue &&
                                 shouldShowLockScreen && !Unlocked(prefs.unlockExpiration, now)
    {
      if currentScreen == Onboarding then OnboardingView
      else
        assert currentScreen == Main;
        Route(allPermissionsGranted, hasTappedContinue, shouldShowLockScreen, prefs.IsCurrentlyUnlocked(now))
    }
  }

  /** After an NFC unlock the lock screen stays away for the whole five minutes, whatever the flag. */
  lemma NoLockViewWhileUnlocked(a: MainActivity, granted: bool, now: int)
    requires a.prefs.IsCurrentlyUnlocked(now)
    ensures a.CurrentView(granted, now) != LockView
  {
  }
}
