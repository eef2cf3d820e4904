/**
 * The protection switch on the home screen (ui/screens/HomeScreen.kt):
 * the big button turns protection on or off, and turning it on stamps the
 * session's start time.
 */
module Home {
  import opened Preferences

  /** The two stored values the switch writes. */
  datatype Protection = Protection(running: bool, lastServiceStartTime: int)

  /** One press of the button at time `now`. */
  function AfterToggle(p: Protection, now: int): (q: Protection)
    ensures q.running == !p.running
    ensures q.running ==> q.lastServiceStartTime == now
    ensures !q.running ==> q.lastServiceStartTime == p.lastServiceStartTime
  {
    Protection(!p.running, if !p.running then now else p.lastServiceStartTime)
  }

  /** Two presses restore the running flag; the start time is the first press's when that one turned protection on. */
  lemma ToggleTwice(p: Protection, t1: int, t2: int)
    ensures AfterToggle(AfterToggle(p, t1), t2).running == p.running
    ensures !p.running ==> AfterToggle(AfterToggle(p, t1), t2).lastServiceStartTime == t1
    ensures p.running ==> AfterToggle(AfterToggle(p, t1), t2).lastServiceStartTime == t2
  {
  }

  class HomeScreen {
    const prefs: PreferenceManager
    /** The screen's own copy of the flag, read once when the screen opens. */
    var isRunning: bool

    constructor (prefs: PreferenceManager)
      ensures this.prefs == prefs && isRunning == prefs.isServiceRunning
    {
      this.prefs := prefs;
      isRunning := prefs.isServiceRunning;
    }

    /**
     * onToggle: the new state is the opposite of the screen's flag; it is
     * written to the store and to the screen, and only turning protection
     * on records `now` as the start time.
     */
    method OnToggle(now: int)
      modifies this`isRunning, prefs`isServiceRunning, prefs`lastServiceStartTime
      ensures isRunning == !old(isRunning) && prefs.isServiceRunning == isRunning
      ensures Protection(prefs.isServiceRunning, prefs.lastServiceStartTime)
              == AfterToggle(Protection(old(isRunning), old(prefs.lastServiceStartTime)), now)
    {
      var newState := !isRunning;
      prefs.isServiceRunning := newState;
      isRunning := newState;
      if newState {
        prefs.lastServiceStartTime := now;
      }
    }
  }
}
