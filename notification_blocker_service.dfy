/**
 * The notification listener (services/NotificationBlockerService.kt):
 * a notification from a restricted app is saved for the parent and
 * cancelled; every other notification is left alone.
 */
module NotificationBlocker {
  import opened Options
  import opened Preferences

  const NoTitle: string := "No Title"
  const NoContent: string := "No Content"

  /** A posted notification: its package, its key and the title and text extras (null when missing). */
  datatype StatusBarNotification = StatusBarNotification(
    packageName: string,
    key: string,
    title: Option<string>,
    text: Option<string>)

  /** The entry saved for `sbn` at `now`, with the defaults for a missing title or text. */
  function CaptureOf(sbn: StatusBarNotification, now: int): (c: CapturedNotification)
    ensures c.packageName == sbn.packageName && c.timestamp == now
    ensures sbn.title.Some? ==> c.title == sbn.title.value
    ensures sbn.title.None? ==> c.title == NoTitle
    ensures sbn.text.Some? ==> c.content == sbn.text.value
    ensures sbn.text.None? ==> c.content == NoContent
  {
    CapturedNotification(sbn.packageName, sbn.title.OrElse(NoTitle), sbn.text.OrElse(NoContent), now)
  }

  /** Whether the listener captures and cancels `sbn`. */
  function Intercepts(prefs: PreferenceManager, sbn: StatusBarNotification): (b: bool)
    reads prefs
    ensures sbn.packageName == OwnPackage ==> !b
    ensures b <==> sbn.packageName != OwnPackage &&
                   Restricted(prefs.restrictedApps, prefs.appGroups, sbn.packageName)
  {
    sbn.packageName != OwnPackage && prefs.IsAppRestricted(sbn.packageName)
  }

  /**
   * onNotificationPosted: returns the key of the cancelled notification, if
   * any. A notification is cancelled exactly when it is captured, and it is
   * captured exactly when it comes from another app that the store restricts.
   */
  method OnNotificationPosted(prefs: PreferenceManager, sbn: StatusBarNotification, now: int)
    returns (cancelled: Option<string>)
    modifies prefs`capturedNotifications
    ensures cancelled.Some? <==> old(Intercepts(prefs, sbn))
    ensures cancelled.Some? ==> cancelled.value == sbn.key
    ensures prefs.capturedNotifications ==
              old(prefs.capturedNotifications) + (if cancelled.Some? then [CaptureOf(sbn, now)] else [])
  {
    cancelled := None;
    if sbn.packageName == OwnPackage {
      return;
    }
    if prefs.IsAppRestricted(sbn.packageName) {
      var title := sbn.title.OrElse(NoTitle);
      var text := sbn.text.OrElse(NoContent);
      prefs.AddCapturedNotification(sbn.packageName, title, text, now);
      cancelled := Some(sbn.key);
    }
  }
}
