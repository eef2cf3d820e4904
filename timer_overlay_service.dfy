/**
 * The floating protection timer (services/TimerOverlayService.kt): the
 * elapsed time split into hours, minutes and seconds, and the overlay's
 * presence as `onStartCommand`, `showOverlay` and `hideOverlay` change it.
 *
 * The window manager is reduced to two booleans (may the app draw
 * overlays, does adding the view succeed), the clock to a `now` parameter
 * and the handler's one-second rescheduling to a single `Tick`.
 */
module TimerOverlay {
  import opened Options
  import opened Text
  import opened JvmInt
  import opened Preferences

  const ActionShow: string := "ACTION_SHOW"
  const ActionHide: string := "ACTION_HIDE"

  /** The value onStartCommand returns: START_NOT_STICKY or START_STICKY. */
  datatype StartMode = NotSticky | Sticky

  /** The start the timer counts from: the stored service start when positive, else the service's own creation time. */
  function ReferenceStart(lastServiceStartTime: int, startTime: int): (r: int)
    ensures r == lastServiceStartTime || r == startTime
    ensures r == startTime <== lastServiceStartTime <= 0
    ensures r == lastServiceStartTime <== lastServiceStartTime > 0
  {
    if lastServiceStartTime > 0 then lastServiceStartTime else startTime
  }

  datatype Clock = Clock(hours: int, minutes: int, seconds: int)

  /**
   * The fields shown for `millis` elapsed: the whole seconds truncated to
   * a 32-bit Int, then minutes and hours by truncating division; minutes
   * and seconds are shown modulo 60.
   */
  function ClockOf(millis: int): Clock {
    var seconds := ToInt(Quot(millis, 1000));
    var minutes := Quot(seconds, 60);
    var hours := Quot(minutes, 60);
    Clock(hours, Rem(minutes, 60), Rem(seconds, 60))
  }

  /** `"%02d:%02d:%02d".format(hours, minutes % 60, seconds % 60)` */
  function ClockText(millis: int): string {
    var c := ClockOf(millis);
    Pad2(c.hours) + ":" + Pad2(c.minutes) + ":" + Pad2(c.seconds)
  }

  /** Whatever the elapsed time, minutes and seconds lie strictly between -60 and 60 and the hours within the 32-bit range. */
  lemma ClockFieldRanges(millis: int)
    ensures var c := ClockOf(millis);
      -60 < c.minutes < 60 && -60 < c.seconds < 60 && -TwoTo31 <= c.hours < TwoTo31
  {
  }

  /** For elapsed times below 2^31 seconds, the fields are the usual h:m:s split of the elapsed seconds. */
  lemma ClockSplit(millis: int)
    requires 0 <= millis < TwoTo31 * 1000
    ensures var c := ClockOf(millis);
      c.hours >= 0 && 0 <= c.minutes < 60 && 0 <= c.seconds < 60 &&
      c.hours * 3600 + c.minutes * 60 + c.seconds == millis / 1000
  {
    NonNegativeDivision(millis, 1000);
    var s := millis / 1000;
    assert ToInt(Quot(millis, 1000)) == s;
    NonNegativeDivision(s, 60);
    var m := s / 60;
    NonNegativeDivision(m, 60);
    var h := m / 60;
    assert s == 60 * m + s % 60;
    assert m == 60 * h + m % 60;
    assert s == 3600 * h + 60 * (m % 60) + s % 60;
  }

  /** Once 2^31 seconds (about 68 years) have elapsed, the 32-bit truncation makes the seconds field negative. */
  lemma ClockWrapsAtIntRange()
    ensures ClockOf(TwoTo31 * 1000).seconds == -8
  {
    NonNegativeDivision(TwoTo31 * 1000, 1000);
    assert ToInt(Quot(TwoTo31 * 1000, 1000)) == -TwoTo31;
    assert -TwoTo31 == 60 * (-35791394) - 8;
  }

  /** ... and the displayed text then ends in "-8", a negative seconds field. */
  lemma ClockTextWrapsAtIntRange()
    ensures var r := ClockText(TwoTo31 * 1000); r[|r| - 2..] == "-8"
  {
    ClockWrapsAtIntRange();
    var c := ClockOf(TwoTo31 * 1000);
    var t := Pad2(c.hours) + ":" + Pad2(c.minutes) + ":";
    assert ClockText(TwoTo31 * 1000) == t + Pad2(-8);
    assert Pad2(-8) == "-8";
  }

  /** The displayed text reads back as the clock's fields: hours digits, ':', two minute digits, ':', two second digits. */
  lemma ClockTextShape(millis: int)
    requires 0 <= millis < TwoTo31 * 1000
    ensures var r := ClockText(millis); var c := ClockOf(millis);
      |r| >= 8 && r[|r| - 6] == ':' && r[|r| - 3] == ':' &&
      AllDigits(r[..|r| - 6]) && ParseDecimal(r[..|r| - 6]) == c.hours &&
      IsDigit(r[|r| - 5]) && IsDigit(r[|r| - 4]) && 10 * DigitValue(r[|r| - 5]) + DigitValue(r[|r| - 4]) == c.minutes &&
      IsDigit(r[|r| - 2]) && IsDigit(r[|r| - 1]) && 10 * DigitValue(r[|r| - 2]) + DigitValue(r[|r| - 1]) == c.seconds
  {
    ClockSplit(millis);
    var c := ClockOf(millis);
    Pad2Digits(c.minutes);
    Pad2Digits(c.seconds);
    var hs, ms, ss := Pad2(c.hours), Pad2(c.minutes), Pad2(c.seconds);
    var r := ClockText(millis);
    assert r == hs + ":" + ms + ":" + ss;
    assert |r| == |hs| + 6;
    assert r[..|r| - 6] == hs;
    assert r[|r| - 5] == ms[0] && r[|r| - 4] == ms[1];
    assert r[|r| - 2] == ss[0] && r[|r| - 1] == ss[1];
  }

  class TimerOverlayService {
    const prefs: PreferenceManager
    /** When the service was created. */
    var startTime: int
    /** overlayView != null */
    var overlayAttached: bool
    /** timerTextView != null: set when the layout is inflated, never cleared. */
    var textViewBound: bool
    /** timerRunnable is posted on the handler. */
    var tickScheduled: bool
    /** stopSelf() has been called. */
    var stopRequested: bool
    /** The timer text view's text. */
    var displayedText: string

    /** The service as created by the system at time `now` (onCreate). */
    constructor (prefs: PreferenceManager, now: int)
      ensures this.prefs == prefs && startTime == now
      ensures !overlayAttached && !textViewBound && !tickScheduled && !stopRequested
    {
      this.prefs := prefs;
      startTime := now;
      overlayAttached := false;
      textViewBound := false;
      tickScheduled := false;
      stopRequested := false;
      displayedText := "";
    }

    /**
     * showOverlay: nothing happens without the overlay permission or when
     * an overlay is already present. Otherwise the view is inflated; if
     * adding it to the window succeeds the timer starts, and if it fails
     * the overlay is left absent.
     */
    method ShowOverlay(canDrawOverlays: bool, addViewSucceeds: bool)
      modifies this`overlayAttached, this`textViewBound, this`tickScheduled
      ensures !canDrawOverlays || old(overlayAttached) ==>
                overlayAttached == old(overlayAttached) && textViewBound == old(textViewBound) &&
                tickScheduled == old(tickScheduled)
      ensures canDrawOverlays && !old(overlayAttached) ==>
                textViewBound && overlayAttached == addViewSucceeds &&
                tickScheduled == (addViewSucceeds || old(tickScheduled))
    {
      if !canDrawOverlays {
        return;
      }
      if overlayAttached {
        return;
      }
      overlayAttached := true;
      textViewBound := true;
      if addViewSucceeds {
        tickScheduled := true;
      } else {
        overlayAttached := false;
      }
    }

    /** hideOverlay: the timer stops and no overlay is present afterwards, whatever the state before. */
    method HideOverlay()
      modifies this`overlayAttached, this`tickScheduled
      ensures !overlayAttached && !tickScheduled
    {
      tickScheduled := false;
      if overlayAttached {
        overlayAttached := false;
      }
    }

    /**
     * onStartCommand: with protection off the overlay is hidden and the
     * service stops, whatever the action. Otherwise SHOW shows the
     * overlay and HIDE hides it and stops the service.
     */
    method OnStartCommand(action: Option<string>, canDrawOverlays: bool, addViewSucceeds: bool)
      returns (mode: StartMode)
      modifies this`overlayAttached, this`textViewBound, this`tickScheduled, this`stopRequested
      ensures mode == NotSticky <==> !prefs.isServiceRunning
      ensures !prefs.isServiceRunning ==>
                !overlayAttached && !tickScheduled && stopRequested && textViewBound == old(textViewBound)
      ensures prefs.isServiceRunning && action == Some(ActionHide) ==>
                !overlayAttached && !tickScheduled && stopRequested && textViewBound == old(textViewBound)
      ensures prefs.isServiceRunning && action == Some(ActionShow) ==> stopRequested == old(stopRequested)
      ensures prefs.isServiceRunning && action == Some(ActionShow) && (!canDrawOverlays || old(overlayAttached)) ==>
                overlayAttached == old(overlayAttached) && textViewBound == old(textViewBound) &&
                tickScheduled == old(tickScheduled)
      ensures prefs.isServiceRunning && action == Some(ActionShow) && canDrawOverlays && !old(overlayAttached) ==>
                textViewBound && overlayAttached == addViewSucceeds &&
                tickScheduled == (addViewSucceeds || old(tickScheduled))
      ensures prefs.isServiceRunning && action != Some(ActionShow) && action != Some(ActionHide) ==>
                overlayAttached == old(overlayAttached) && tickScheduled == old(tickScheduled) &&
                stopRequested == old(stopRequested) && textViewBound == old(textViewBound)
    {
      if !prefs.isServiceRunning {
        HideOverlay();
        stopRequested := true;
        return NotSticky;
      }
      if action == Some(ActionShow) {
        ShowOverlay(canDrawOverlays, addViewSucceeds);
      } else if action == Some(ActionHide) {
        HideOverlay();
        stopRequested := true;
      }
      return Sticky;
    }

    /** One run of timerRunnable at time `now`: the bound text view shows the time elapsed since the reference start. */
    method Tick(now: int)
      modifies this`displayedText
      ensures textViewBound ==>
                displayedText == ClockText(now - ReferenceStart(prefs.lastServiceStartTime, startTime))
      ensures !textViewBound ==> displayedText == old(displayedText)
    {
      var start := ReferenceStart(prefs.lastServiceStartTime, startTime);
      var millis := now - start;
      if textViewBound {
        displayedText := ClockText(millis);
      }
      assert millis == now - ReferenceStart(prefs.lastServiceStartTime, startTime);
    }

    /** onDestroy hides the overlay. */
    method OnDestroy()
      modifies this`overlayAttached, this`tickScheduled
      ensures !overlayAttached && !tickScheduled
    {
      HideOverlay();
    }
  }
}
