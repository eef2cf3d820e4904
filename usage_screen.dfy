/**
 * The usage history screen (ui/screens/UsageScreen.kt): the duration
 * formatter, the per-day totals, the running session's duration and the
 * Clear button.
 *
 * Grouping by calendar day depends on the device's time zone and locale;
 * it is a parameter `dayOf` here, mapping a session's start time to its day.
 */
module Usage {
  import opened Text
  import opened JvmInt
  import opened Preferences
  import TimerOverlay

  const MsPerSecond: int := 1000
  const MsPerMinute: int := 60 * 1000
  const MsPerHour: int := 60 * 60 * 1000

  datatype DurationFields = DurationFields(hours: int, minutes: int, seconds: int)

  /**
   * The fields formatDuration shows: TimeUnit's whole hours, and the whole
   * minutes and seconds modulo 60, all with the JVM's truncating operators.
   */
  function FieldsOf(ms: int): DurationFields {
    DurationFields(Quot(ms, MsPerHour), Rem(Quot(ms, MsPerMinute), 60), Rem(Quot(ms, MsPerSecond), 60))
  }

  /** formatDuration: "HHh MMm SSs" when there is at least one whole hour, "MMm SSs" otherwise. */
  function FormatDuration(ms: int): (r: string)
    ensures |r| >= 7 && r[|r| - 1] == 's'
  {
    var f := FieldsOf(ms);
    if f.hours > 0 then Pad2(f.hours) + "h " + Pad2(f.minutes) + "m " + Pad2(f.seconds) + "s"
    else Pad2(f.minutes) + "m " + Pad2(f.seconds) + "s"
  }

  /** For a non-negative duration the fields are the h:m:s split of its whole seconds. */
  lemma DurationSplit(ms: int)
    requires ms >= 0
    ensures var f := FieldsOf(ms);
      f.hours >= 0 && 0 <= f.minutes < 60 && 0 <= f.seconds < 60 &&
      f.hours * 3600 + f.minutes * 60 + f.seconds == ms / 1000
  {
    NonNegativeDivision(ms, MsPerHour);
    NonNegativeDivision(ms, MsPerMinute);
    NonNegativeDivision(ms, MsPerSecond);
    var s := ms / 1000;
    NonNegativeDivision(ms / MsPerMinute, 60);
    NonNegativeDivision(s, 60);
    assert ms / MsPerMinute == s / 60;
    assert ms / MsPerHour == (s / 60) / 60;
    var m := s / 60;
    assert s == 60 * m + s % 60;
    assert m == 60 * (m / 60) + m % 60;
  }

  /** Every character of a `%02d` rendering is a digit or a minus sign. */
  lemma Pad2Chars(n: int)
    ensures forall i :: 0 <= i < |Pad2(n)| ==> IsDigit(Pad2(n)[i]) || Pad2(n)[i] == '-'
  {
    var r := Pad2(n);
    if n < 0 {
      forall i | 0 < i < |r|
        ensures IsDigit(r[i])
      {
        assert r[i] == r[1..][i - 1];
      }
    }
  }

  /** The hours field and its "h" appear exactly when the duration has at least one whole hour. */
  lemma HoursShownIff(ms: int)
    ensures 'h' in FormatDuration(ms) <==> FieldsOf(ms).hours > 0
  {
    var f := FieldsOf(ms);
    Pad2Chars(f.minutes);
    Pad2Chars(f.seconds);
    var tail := Pad2(f.minutes) + "m " + Pad2(f.seconds) + "s";
    assert 'h' !in tail by {
      forall i | 0 <= i < |tail|
        ensures tail[i] != 'h'
      {
        var a := Pad2(f.minutes);
        if i < |a| {
          assert tail[i] == a[i];
        } else if i >= |a| + 2 && i < |tail| - 1 {
          assert tail[i] == Pad2(f.seconds)[i - |a| - 2];
        }
      }
    }
    if f.hours > 0 {
      var r := FormatDuration(ms);
      assert r[|Pad2(f.hours)|] == 'h';
    }
  }

  /** Under an hour the text is the seven characters "MMm SSs". */
  lemma UnderAnHour(ms: int)
    requires 0 <= ms < MsPerHour
    ensures FieldsOf(ms).hours == 0
    ensures var r := FormatDuration(ms); |r| == 7 && r[2] == 'm' && r[3] == ' ' && r[6] == 's'
  {
    NonNegativeDivision(ms, MsPerHour);
    DurationSplit(ms);
    var f := FieldsOf(ms);
    assert f.hours == 0;
    assert |Pad2(f.minutes)| == 2 && |Pad2(f.seconds)| == 2;
  }

  /**
   * The text reads back as the fields: the last seven characters are two
   * minute digits, "m ", two second digits and "s"; before them stand the
   * hour digits and "h " exactly when there is a whole hour.
   */
  lemma FormatDurationShape(ms: int)
    requires ms >= 0
    ensures var r, f := FormatDuration(ms), FieldsOf(ms); var n := |r|;
      n >= 7 && r[n - 5..n - 3] == "m " && r[n - 1] == 's' &&
      IsDigit(r[n - 7]) && IsDigit(r[n - 6]) && 10 * DigitValue(r[n - 7]) + DigitValue(r[n - 6]) == f.minutes &&
      IsDigit(r[n - 3]) && IsDigit(r[n - 2]) && 10 * DigitValue(r[n - 3]) + DigitValue(r[n - 2]) == f.seconds &&
      (f.hours > 0 ==> n >= 11 && r[n - 9..n - 7] == "h " && AllDigits(r[..n - 9]) && ParseDecimal(r[..n - 9]) == f.hours) &&
      (f.hours <= 0 ==> n == 7)
  {
    DurationSplit(ms);
    var f := FieldsOf(ms);
    Pad2Digits(f.minutes);
    Pad2Digits(f.seconds);
    var ms2, ss := Pad2(f.minutes), Pad2(f.seconds);
    var tail := ms2 + "m " + ss + "s";
    assert |tail| == 7;
    assert tail[0] == ms2[0] && tail[1] == ms2[1] && tail[2..4] == "m " && tail[4] == ss[0] && tail[5] == ss[1];
    var r := FormatDuration(ms);
    if f.hours > 0 {
      var head := Pad2(f.hours) + "h ";
      assert r == head + tail;
      assert r[..|r| - 9] == Pad2(f.hours);
      assert r[|r| - 7..] == tail;
    } else {
      assert r == tail;
    }
  }

  /** The usage screen and the floating timer show the same hours, minutes and seconds for the same elapsed time. */
  lemma AgreesWithOverlayClock(ms: int)
    requires 0 <= ms < TwoTo31 * 1000
    ensures var f, c := FieldsOf(ms), TimerOverlay.ClockOf(ms);
      f.hours == c.hours && f.minutes == c.minutes && f.seconds == c.seconds
  {
    DurationSplit(ms);
    TimerOverlay.ClockSplit(ms);
    var f, c := FieldsOf(ms), TimerOverlay.ClockOf(ms);
    var s := ms / 1000;
    assert 0 <= s - 3600 * f.hours < 3600;
    assert 0 <= s - 3600 * c.hours < 3600;
    assert f.hours == c.hours;
    assert 0 <= s - 3600 * f.hours - 60 * f.minutes < 60;
    assert f.minutes == c.minutes;
  }

  /** `sumOf { it.durationMs }` over a list of sessions. */
  function TotalDuration(sessions: seq<DetailedSession>): (t: int)
    ensures (forall i :: 0 <= i < |sessions| ==> sessions[i].durationMs >= 0) ==> t >= 0
  {
    if sessions == [] then 0
    else TotalDuration(sessions[..|sessions| - 1]) + sessions[|sessions| - 1].durationMs
  }

  lemma {:induction false} TotalDurationAppend(a: seq<DetailedSession>, b: seq<DetailedSession>)
    ensures TotalDuration(a + b) == TotalDuration(a) + TotalDuration(b)
    decreases |b|
  {
    if b != [] {
      assert (a + b)[..|a + b| - 1] == a + b[..|b| - 1];
      TotalDurationAppend(a, b[..|b| - 1]);
    } else {
      assert a + b == a;
    }
  }

  /** The sessions started on `day`, in their stored order (one group of `groupBy`). */
  function SessionsOn(sessions: seq<DetailedSession>, dayOf: int -> string, day: string): (r: seq<DetailedSession>)
    ensures forall s :: s in r <==> s in sessions && dayOf(s.startTime) == day
  {
    if sessions == [] then []
    else
      var last := sessions[|sessions| - 1];
      SessionsOn(sessions[..|sessions| - 1], dayOf, day) + (if dayOf(last.startTime) == day then [last] else [])
  }

  /** The sessions started on any other day. */
  function SessionsNotOn(sessions: seq<DetailedSession>, dayOf: int -> string, day: string): (r: seq<DetailedSession>)
    ensures forall s :: s in r <==> s in sessions && dayOf(s.startTime) != day
  {
    if sessions == [] then []
    else
      var last := sessions[|sessions| - 1];
      SessionsNotOn(sessions[..|sessions| - 1], dayOf, day) + (if dayOf(last.startTime) != day then [last] else [])
  }

  /** A day's group is an order-preserving filter: it distributes over concatenation. */
  lemma {:induction false} SessionsOnConcat(a: seq<DetailedSession>, b: seq<DetailedSession>, dayOf: int -> string, day: string)
    ensures SessionsOn(a + b, dayOf, day) == SessionsOn(a, dayOf, day) + SessionsOn(b, dayOf, day)
    decreases |b|
  {
    if b == [] {
      assert a + b == a;
    } else {
      var init, last := b[..|b| - 1], b[|b| - 1];
      assert (a + b)[..|a + b| - 1] == a + init && (a + b)[|a + b| - 1] == last;
      SessionsOnConcat(a, init, dayOf, day);
      var tail := if dayOf(last.startTime) == day then [last] else [];
      assert SessionsOn(b, dayOf, day) == SessionsOn(init, dayOf, day) + tail;
      assert SessionsOn(a + b, dayOf, day) == SessionsOn(a + init, dayOf, day) + tail;
    }
  }

  /** So is the rest. */
  lemma {:induction false} SessionsNotOnConcat(a: seq<DetailedSession>, b: seq<DetailedSession>, dayOf: int -> string, day: string)
    ensures SessionsNotOn(a + b, dayOf, day) == SessionsNotOn(a, dayOf, day) + SessionsNotOn(b, dayOf, day)
    decreases |b|
  {
    if b == [] {
      assert a + b == a;
    } else {
      var init, last := b[..|b| - 1], b[|b| - 1];
      assert (a + b)[..|a + b| - 1] == a + init && (a + b)[|a + b| - 1] == last;
      SessionsNotOnConcat(a, init, dayOf, day);
      var tail := if dayOf(last.startTime) != day then [last] else [];
      assert SessionsNotOn(b, dayOf, day) == SessionsNotOn(init, dayOf, day) + tail;
      assert SessionsNotOn(a + b, dayOf, day) == SessionsNotOn(a + init, dayOf, day) + tail;
    }
  }

  /** Every session lands in exactly one of the two groups, as often as it occurs. */
  lemma {:induction false} SessionsSplit(sessions: seq<DetailedSession>, dayOf: int -> string, day: string)
    ensures multiset(SessionsOn(sessions, dayOf, day)) + multiset(SessionsNotOn(sessions, dayOf, day)) == multiset(sessions)
  {
    if sessions != [] {
      var init := sessions[..|sessions| - 1];
      SessionsSplit(init, dayOf, day);
      assert sessions == init + [sessions[|sessions| - 1]];
    }
  }

  /** A day's total and the other days' totals add up to the total of all sessions: no session is lost or counted twice. */
  lemma {:induction false} DayTotalsPartition(sessions: seq<DetailedSession>, dayOf: int -> string, day: string)
    ensures TotalDuration(SessionsOn(sessions, dayOf, day)) + TotalDuration(SessionsNotOn(sessions, dayOf, day))
            == TotalDuration(sessions)
  {
    if sessions != [] {
      var init, last := sessions[..|sessions| - 1], sessions[|sessions| - 1];
      DayTotalsPartition(init, dayOf, day);
      TotalDurationAppend(SessionsOn(init, dayOf, day), if dayOf(last.startTime) == day then [last] else []);
      TotalDurationAppend(SessionsNotOn(init, dayOf, day), if dayOf(last.startTime) != day then [last] else []);
      assert TotalDuration([last]) == last.durationMs by {
        assert [last][..0] == [];
      }
    }
  }

  /** The running session's duration: time since the stored start while the service is enabled and has a start, else 0. */
  function CurrentSessionDuration(serviceEnabled: bool, lastServiceStartTime: int, now: int): (d: int)
    ensures !serviceEnabled || lastServiceStartTime <= 0 ==> d == 0
    ensures serviceEnabled && lastServiceStartTime > 0 ==> lastServiceStartTime + d == now
    ensures serviceEnabled && lastServiceStartTime > 0 && now >= lastServiceStartTime ==> d >= 0
  {
    if serviceEnabled && lastServiceStartTime > 0 then now - lastServiceStartTime else 0
  }

  class UsageScreen {
    const prefs: PreferenceManager
    /** The sessions on display. */
    var sessions: seq<DetailedSession>
    var currentSessionDuration: int

    /** The screen opens on the stored sessions and a zero running duration. */
    constructor (prefs: PreferenceManager)
      ensures this.prefs == prefs && sessions == prefs.detailedSessions && currentSessionDuration == 0
    {
      this.prefs := prefs;
      sessions := prefs.detailedSessions;
      currentSessionDuration := 0;
    }

    /** One pass of the refresh effect at time `now`, given whether the accessibility service is enabled. */
    method RefreshCurrentSession(serviceEnabled: bool, now: int)
      modifies this`currentSessionDuration
      ensures currentSessionDuration == CurrentSessionDuration(serviceEnabled, prefs.lastServiceStartTime, now)
    {
      if serviceEnabled && prefs.lastServiceStartTime > 0 {
        currentSessionDuration := now - prefs.lastServiceStartTime;
      } else {
        currentSessionDuration := 0;
      }
    }

    /** The Clear button empties both the stored and the displayed history. */
    method Clear()
      modifies prefs`detailedSessions, this`sessions
      ensures prefs.detailedSessions == [] && sessions == []
    {
      prefs.detailedSessions := [];
      sessions := [];
    }

    /** The total shown for `day`. */
    function DayTotal(dayOf: int -> string, day: string): (t: int)
      reads this
      ensures sessions == [] ==> t == 0
      ensures t == TotalDuration(sessions) - TotalDuration(SessionsNotOn(sessions, dayOf, day))
    {
      DayTotalsPartition(sessions, dayOf, day);
      TotalDuration(SessionsOn(sessions, dayOf, day))
    }
  }
}
