/** `AlarmReceiver`: the daily 3 AM sync. When the alarm fires it syncs, notifies
    only about a new permit, and always schedules the next alarm for the first
    3 AM after now. Local time is a fixed offset from UTC with 24-hour days; the
    clock value is the parameter `now`. */
module Alarm {
  import opened JavaLang
  import opened PermitData
  import opened TimeUtils
  import opened GitHubSync

  /** The hour of day of the sync. */
  const SyncHour := 3

  /** 03:00:00.000 as milliseconds into a day. */
  const SyncMs := SyncHour * 3600000

  /** `getNext3AM()`: today's 03:00:00.000 local time, moved one day later when it is
      not after now. `utcOffset` is the local zone's offset in milliseconds. */
  function Next3AM(now: int, utcOffset: int): (r: int)
    ensures now < r <= now + DayMs
    ensures (r + utcOffset) % DayMs == SyncMs
  {
    var local := now + utcOffset;
    var today3 := local - local % DayMs + SyncMs - utcOffset;
    if today3 <= now then today3 + DayMs else today3
  }

  /** Two instants that are both 3 AM differ by whole days. */
  lemma SameTimeOfDay(x: int, y: int, utcOffset: int)
    requires (x + utcOffset) % DayMs == SyncMs && (y + utcOffset) % DayMs == SyncMs
    requires x < y
    ensures y - x >= DayMs
  {
    var a, b := x + utcOffset, y + utcOffset;
    assert a == (a / DayMs) * DayMs + SyncMs;
    assert b == (b / DayMs) * DayMs + SyncMs;
    assert a / DayMs < b / DayMs;
    MulMonotone(a / DayMs + 1, b / DayMs, DayMs);
  }

  /** The trigger is the first 3 AM after now: no 3 AM lies strictly between. */
  lemma {:induction false} Next3AMIsFirst(now: int, utcOffset: int, x: int)
    requires now < x && (x + utcOffset) % DayMs == SyncMs
    ensures Next3AM(now, utcOffset) <= x
  {
    var r := Next3AM(now, utcOffset);
    if x < r {
      SameTimeOfDay(x, r, utcOffset);
      assert false;
    }
  }

  /** How the alarm is set: exact, unless Android 12 or later refuses exact alarms. */
  datatype AlarmMode = ExactAndAllowWhileIdle | AndAllowWhileIdle

  function ScheduleMode(sdkAtLeastS: bool, canScheduleExact: bool): (m: AlarmMode)
    ensures m == AndAllowWhileIdle <==> sdkAtLeastS && !canScheduleExact
  {
    if sdkAtLeastS && !canScheduleExact then AndAllowWhileIdle else ExactAndAllowWhileIdle
  }

  /** What one alarm leads to: the notification text (if any) and the next alarm. */
  datatype AlarmEffects = AlarmEffects(notification: Option<string>, trigger: int, mode: AlarmMode)

  /** The text of the "New Permit Available" notification; a null field prints as "null". */
  function NotificationText(p: Permit): string {
    "Permit " + Show(p.permitNumber) + " for " + Show(p.plateNumber)
  }

  /** `onReceive`: given how the sync ended, notify only for a new permit, and
      reschedule in every case. */
  function OnReceive(outcome: SyncOutcome, now: int, utcOffset: int,
                     sdkAtLeastS: bool, canScheduleExact: bool): (e: AlarmEffects)
    ensures e.notification.Some? <==> outcome.Synced? && outcome.isNew
    ensures e.notification.Some? ==> e.notification.value == NotificationText(outcome.permit)
    ensures e.trigger == Next3AM(now, utcOffset) && e.mode == ScheduleMode(sdkAtLeastS, canScheduleExact)
  {
    var notification := if outcome.Synced? && outcome.isNew then Some(NotificationText(outcome.permit)) else None;
    AlarmEffects(notification, Next3AM(now, utcOffset), ScheduleMode(sdkAtLeastS, canScheduleExact))
  }

  /** An alarm that fires at 3 AM schedules the next one exactly a day later. */
  lemma {:induction false} AtThreeNextIsTomorrow(now: int, utcOffset: int)
    requires (now + utcOffset) % DayMs == SyncMs
    ensures Next3AM(now, utcOffset) == now + DayMs
  {
    var r := Next3AM(now, utcOffset);
    if r < now + DayMs {
      SameTimeOfDay(now, r, utcOffset);
      assert false;
    }
  }
}
