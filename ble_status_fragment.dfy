/** The decisions `BleStatusFragment` makes when it refreshes: which permit is shown
    as current, its date range and expiry badge, whether a second "scheduled" card
    shows the next permit (fetched or estimated), the sync-time labels, and which
    permit is recorded as being on the display after the display read it.

    The display permit, the out-of-sync flag and the last display-sync time are
    read from repository methods that `PermitRepository` does not define, so they
    are inputs here. Date parsing and formatting are `SimpleDateFormat` calls with
    the device's time zone: they are the functions of a `Dates` value. The clock
    value is the parameter `now`. Widget updates are left out; each decision is the
    value the widgets are set from. A `None` result is a `NullPointerException`
    that escapes the refresh. */
module StatusView {
  import opened JavaLang
  import opened PermitData
  import opened TimeUtils

  /** The date functions the fragment uses, with `None` for a `ParseException`:
      `parseFull` reads "MMM dd, yyyy: HH:mm", `parseDay` reads "MMM dd, yyyy",
      `formatDay` writes "MMM dd, yyyy", and `dayKey` is the "yyyyMMdd" text of an
      instant as a number, so two instants share a calendar day when their keys are
      equal. */
  datatype Dates = Dates(
    parseFull: string -> Option<int>,
    parseDay: string -> Option<int>,
    formatDay: int -> string,
    dayKey: int -> int)

  // ---------------------------------------------------------------- current permit

  /** The permit shown as current: the one on the display when the display is out
      of sync and holds a valid permit (that is what it shows), else the fetched one. */
  function CurrentPermit(remote: Option<Permit>, display: Option<Permit>, outOfSync: bool): (r: Option<Permit>)
    ensures r == display <==> (outOfSync && display.Some? && IsValid(display.value)) || display == remote
    ensures r != display ==> r == remote
    ensures r.Some? && IsValid(r.value) <==>
              (outOfSync && display.Some? && IsValid(display.value)) || (remote.Some? && IsValid(remote.value))
  {
    if outOfSync && display.Some? && IsValid(display.value) then display else remote
  }

  /** When the display is in sync, or holds nothing valid, the fetched permit is current. */
  lemma InSyncShowsRemote(remote: Option<Permit>, display: Option<Permit>, outOfSync: bool)
    requires !outOfSync || display.None? || !IsValid(display.value)
    ensures CurrentPermit(remote, display, outOfSync) == remote
  {
  }

  // ---------------------------------------------------------------- date range

  /** The last-resort cleanup: the text before the last ':' trimmed, or the text
      unchanged when it has no ':'. */
  function Fallback(s: string): (r: string)
    ensures ':' !in s ==> r == s
  {
    match LastIndexOf(s, ':')
    case None => s
    case Some(k) => Trim(s[..k])
  }

  /** Only the text after the last ':' is dropped; earlier colons stay. */
  lemma FallbackCutsAtLastColon(head: string, tail: string)
    requires ':' !in tail
    ensures Fallback(head + ":" + tail) == Trim(head)
  {
    var s := head + ":" + tail;
    assert s[|head|] == ':';
    assert s[|head| + 1..] == tail;
    var k := LastIndexOf(s, ':');
    assert k.Some? && k.value == |head|;
    assert s[..|head|] == head;
  }

  /** The second attempt's parse: the text before the first ':', trimmed, read as a
      day. `None` when either the split indexes an empty array or the parse fails
      (both are caught). */
  function AltParse(s: string, f: Dates): (r: Option<int>)
    ensures ':' !in s ==> r == f.parseDay(Trim(s))
  {
    match SplitHead(s, ':')
    case None => None
    case Some(head) => f.parseDay(Trim(head))
  }

  /** `formatDateRange(from, to)`: both dates parsed with the time; failing that,
      both parsed without it; failing that, the two texts cleaned up. `None` when
      either is null, which throws before any handler applies. */
  function DateRange(from: JString, to: JString, f: Dates): (r: Option<string>)
    ensures r.None? <==> from.None? || to.None?
    ensures r.Some? ==> exists a, b :: r.value == a + " - " + b
  {
    if from.None? || to.None? then None
    else
      var (a, b) := (from.value, to.value);
      if f.parseFull(a).Some? && f.parseFull(b).Some? then
        Some(f.formatDay(f.parseFull(a).value) + " - " + f.formatDay(f.parseFull(b).value))
      else if AltParse(a, f).Some? && AltParse(b, f).Some? then
        Some(f.formatDay(AltParse(a, f).value) + " - " + f.formatDay(AltParse(b, f).value))
      else
        Some(Fallback(a) + " - " + Fallback(b))
  }

  /** The three tiers apply in order: the cleaned-up texts appear only when the two
      dates do not both parse by either format. */
  lemma DateRangeTiers(a: string, b: string, f: Dates)
    ensures f.parseFull(a).Some? && f.parseFull(b).Some? ==>
      DateRange(Some(a), Some(b), f) == Some(f.formatDay(f.parseFull(a).value) + " - " + f.formatDay(f.parseFull(b).value))
    ensures (f.parseFull(a).None? || f.parseFull(b).None?) && AltParse(a, f).Some? && AltParse(b, f).Some? ==>
      DateRange(Some(a), Some(b), f) == Some(f.formatDay(AltParse(a, f).value) + " - " + f.formatDay(AltParse(b, f).value))
    ensures (f.parseFull(a).None? || f.parseFull(b).None?) && (AltParse(a, f).None? || AltParse(b, f).None?) ==>
      DateRange(Some(a), Some(b), f) == Some(Fallback(a) + " - " + Fallback(b))
  {
  }

  /** In the last tier, texts without ':' are shown as they are. */
  lemma {:induction false} ColonFreeFallback(a: string, b: string, f: Dates)
    requires (f.parseFull(a).None? || f.parseFull(b).None?) && (AltParse(a, f).None? || AltParse(b, f).None?)
    requires ':' !in a && ':' !in b
    ensures DateRange(Some(a), Some(b), f) == Some(a + " - " + b)
  {
    DateRangeTiers(a, b, f);
  }

  // ---------------------------------------------------------------- badge

  datatype Badge = Expired | ExpiringToday | Expiring | Current

  /** `updatePermitBadge`: expired once `now` is past the end instant; else "Expiring
      Today" on its calendar day; else "Expiring" while the truncated day count is at
      most 1; else "Current". An unparseable end date counts as "Current"; a null one
      throws (`None`). */
  function BadgeFor(validTo: JString, now: int, f: Dates): (r: Option<Badge>)
    ensures r.None? <==> validTo.None?
    ensures validTo.Some? && f.parseFull(validTo.value).None? ==> r == Some(Current)
  {
    if validTo.None? then None
    else match f.parseFull(validTo.value)
      case None => Some(Current)
      case Some(t) =>
        var isToday := f.dayKey(t) == f.dayKey(now);
        var daysRemaining := Quot(t - now, DayMs);
        if now > t then Some(Expired)
        else if isToday then Some(ExpiringToday)
        else if daysRemaining <= 1 then Some(Expiring)
        else Some(Current)
  }

  /** What each badge means, with the truncated day count replaced by the time left. */
  lemma {:induction false} BadgeMeaning(validTo: string, now: int, f: Dates, t: int)
    requires f.parseFull(validTo) == Some(t)
    ensures BadgeFor(Some(validTo), now, f) == Some(Expired) <==> now > t
    ensures BadgeFor(Some(validTo), now, f) == Some(ExpiringToday) <==> now <= t && f.dayKey(t) == f.dayKey(now)
    ensures BadgeFor(Some(validTo), now, f) == Some(Expiring) <==>
              now <= t && f.dayKey(t) != f.dayKey(now) && t - now < 2 * DayMs
    ensures BadgeFor(Some(validTo), now, f) == Some(Current) <==>
              now <= t && f.dayKey(t) != f.dayKey(now) && t - now >= 2 * DayMs
  {
    QuotAtMost(t - now, DayMs, 1);
  }

  // ---------------------------------------------------------------- scheduled card

  /** The second card: hidden, the fetched permit (newer than the current one) with
      its date range, or an estimate of the next permit from the current one's end
      date. */
  datatype Scheduled =
    | Hidden
    | Fetched(permit: Permit, dates: string)
    | Estimated(startMs: int, endMs: int, plate: JString, price: Option<string>)

  /** The fetched permit is valid and has a different number from the current one,
      so the second card shows it. */
  predicate NewerFetched(current: Permit, remote: Option<Permit>) {
    remote.Some? && IsValid(remote.value) && remote.value.permitNumber != current.permitNumber
  }

  /** `updateScheduledPermit(current, remote, hasDisplayPermit)`. The fetched card
      formats the fetched permit's dates, which throws on a null date. The estimate
      starts a day after the current permit ends and ends six days after that
      (calendar days as fixed 24-hour steps), on the same plate, with "~" before a
      non-empty price. */
  function ScheduledCard(current: Permit, remote: Option<Permit>, hasDisplayPermit: bool,
                         now: int, f: Dates): (r: Option<Scheduled>)
    ensures r.Some? && r.value.Fetched? <==>
              NewerFetched(current, remote) && remote.value.validFrom.Some? && remote.value.validTo.Some?
    ensures r.Some? && r.value.Fetched? ==>
              r.value.permit == remote.value
              && DateRange(remote.value.validFrom, remote.value.validTo, f) == Some(r.value.dates)
    ensures !hasDisplayPermit && !NewerFetched(current, remote) ==> r == Some(Hidden)
    ensures r.None? <==>
              if NewerFetched(current, remote) then remote.value.validFrom.None? || remote.value.validTo.None?
              else hasDisplayPermit && current.validTo.None?
  {
    if NewerFetched(current, remote) then
      match DateRange(remote.value.validFrom, remote.value.validTo, f)
      case None => None
      case Some(dates) => Some(Fetched(remote.value, dates))
    else if !hasDisplayPermit then Some(Hidden)
    else if current.validTo.None? then None
    else match f.parseFull(current.validTo.value)
      case None => Some(Hidden)
      case Some(t) =>
        var isToday := f.dayKey(t) == f.dayKey(now);
        var daysRemaining := Quot(t - now, DayMs);
        if isToday || daysRemaining <= 2 then
          Some(Estimated(t + DayMs, t + 7 * DayMs, current.plateNumber,
                         if Present(current.price) then Some("~" + current.price.value) else None))
        else Some(Hidden)
  }

  /** The estimate appears exactly when there is a display permit, nothing newer was
      fetched, and the current permit ends on today's date or less than three days
      from now (including already ended). */
  lemma {:induction false} EstimateIff(current: Permit, remote: Option<Permit>, now: int, f: Dates, t: int)
    requires !NewerFetched(current, remote)
    requires current.validTo.Some? && f.parseFull(current.validTo.value) == Some(t)
    ensures ScheduledCard(current, remote, true, now, f).Some?
    ensures ScheduledCard(current, remote, true, now, f).value.Estimated? <==>
              f.dayKey(t) == f.dayKey(now) || t - now < 3 * DayMs
    ensures ScheduledCard(current, remote, true, now, f).value.Estimated? ==>
              var e := ScheduledCard(current, remote, true, now, f).value;
              && e.startMs == t + DayMs && e.endMs - e.startMs == 6 * DayMs
              && e.plate == current.plateNumber
              && (e.price.Some? <==> Present(current.price))
              && (e.price.Some? ==> e.price.value == "~" + current.price.value)
  {
    QuotAtMost(t - now, DayMs, 2);
  }

  // ---------------------------------------------------------------- the refresh

  /** What the permit panel shows after `updateUI`: the "No permit" placeholders, or
      the current permit's number, price, vehicle line, dates, badge and second card. */
  datatype PermitPanel =
    | NoPermit
    | PermitShown(number: string, price: Option<string>, vehicle: string, dates: string,
                  badge: Badge, scheduled: Scheduled)

  /** The vehicle line, `String.format("Hooptie (%s)", plate)`; `%s` prints a null
      plate as "null". */
  function VehicleLine(plate: JString): (r: string)
    ensures plate.Some? ==> r == "Hooptie (" + plate.value + ")"
    ensures plate.None? ==> r == "Hooptie (null)"
  {
    "Hooptie (" + Show(plate) + ")"
  }

  /** The permit part of `updateUI`; `None` when one of its steps throws. */
  function PermitPanelFor(remote: Option<Permit>, display: Option<Permit>, outOfSync: bool,
                          now: int, f: Dates): (r: Option<PermitPanel>)
    ensures var c := CurrentPermit(remote, display, outOfSync);
      && (r == Some(NoPermit) <==> c.None? || !IsValid(c.value))
      && (c.Some? && IsValid(c.value) ==>
            (r.None? <==> c.value.validFrom.None? || c.value.validTo.None?
                          || ScheduledCard(c.value, remote, display.Some?, now, f).None?))
      && (r.Some? && r.value.PermitShown? ==>
            && c.Some? && Some(r.value.number) == c.value.permitNumber
            && Some(r.value.dates) == DateRange(c.value.validFrom, c.value.validTo, f)
            && Some(r.value.badge) == BadgeFor(c.value.validTo, now, f)
            && Some(r.value.scheduled) == ScheduledCard(c.value, remote, display.Some?, now, f))
  {
    var current := CurrentPermit(remote, display, outOfSync);
    if current.None? || !IsValid(current.value) then Some(NoPermit)
    else
      var p := current.value;
      var dates := DateRange(p.validFrom, p.validTo, f);
      var badge := BadgeFor(p.validTo, now, f);
      var scheduled := ScheduledCard(p, remote, display.Some?, now, f);
      if dates.None? || badge.None? || scheduled.None? then None
      else
        Some(PermitShown(p.permitNumber.value, if Present(p.price) then p.price else None,
                         VehicleLine(p.plateNumber), dates.value, badge.value, scheduled.value))
  }

  /** A current permit with both dates present is shown whenever a newer fetched
      permit also has both dates, and the panel and second card never show the same
      permit number. */
  lemma {:induction false} CompletePermitShows(remote: Option<Permit>, display: Option<Permit>,
                                               outOfSync: bool, now: int, f: Dates)
    requires var c := CurrentPermit(remote, display, outOfSync);
             c.Some? && IsValid(c.value) && c.value.validFrom.Some? && c.value.validTo.Some?
    requires var c := CurrentPermit(remote, display, outOfSync);
             NewerFetched(c.value, remote) ==> remote.value.validFrom.Some? && remote.value.validTo.Some?
    ensures var r := PermitPanelFor(remote, display, outOfSync, now, f);
      && r.Some? && r.value.PermitShown?
      && (r.value.scheduled.Fetched? ==> r.value.scheduled.permit.permitNumber != Some(r.value.number))
  {
    var c := CurrentPermit(remote, display, outOfSync).value;
    var s := ScheduledCard(c, remote, display.Some?, now, f);
    assert s.Some?;
  }

  /** A newer fetched permit with a null date makes the refresh throw, even when the
      current permit is complete: the second card formats its dates. */
  lemma {:induction false} FetchedWithoutDatesThrows(remote: Option<Permit>, display: Option<Permit>,
                                                     outOfSync: bool, now: int, f: Dates)
    requires var c := CurrentPermit(remote, display, outOfSync);
             c.Some? && IsValid(c.value) && NewerFetched(c.value, remote)
    requires remote.value.validFrom.None? || remote.value.validTo.None?
    ensures PermitPanelFor(remote, display, outOfSync, now, f).None?
  {
    var c := CurrentPermit(remote, display, outOfSync).value;
    assert ScheduledCard(c, remote, display.Some?, now, f).None?;
  }

  /** No relative-time label reads "Out of sync", so the display label tells the two
      cases apart. */
  lemma NeverOutOfSyncLabel(timestamp: int, now: int)
    ensures RelativeTime(timestamp, now) != "Out of sync"
  {
    LabelIdentifiesBucket(timestamp, now);
    OutOfSyncIsNoLabel();
  }

  lemma OutOfSyncIsNoLabel()
    ensures Parse("Out of sync") == None
  {
    var s := "Out of sync";
    assert s != "Never" && s != "Just now" by { assert |s| == 11; }
    var d := Before(s, ' ');
    assert d != [] ==> d[0] == 'O';
  }

  /** The two sync-time labels of `updateSyncTimes`: the fetch time, and either
      "Out of sync" or the display-sync time. */
  function SyncTimeLabels(lastSync: int, lastDisplaySync: int, outOfSync: bool, now: int): (r: (string, string))
    ensures r.0 == RelativeTime(lastSync, now)
    ensures outOfSync <==> r.1 == "Out of sync"
  {
    NeverOutOfSyncLabel(lastDisplaySync, now);
    (RelativeTime(lastSync, now), if outOfSync then "Out of sync" else RelativeTime(lastDisplaySync, now))
  }

  // ---------------------------------------------------------------- display permit

  /** The permit recorded as being on the display, after the display read it and
      after a successful push: the cached permit when it and its number are non-null;
      otherwise nothing is recorded. */
  function DisplayPermitToCommit(cached: Option<Permit>): (r: Option<Permit>)
    ensures r.Some? <==> cached.Some? && cached.value.permitNumber.Some?
    ensures r.Some? ==> r == cached
  {
    if cached.Some? && cached.value.permitNumber.Some? then cached else None
  }

  /** The toast after the display was updated; it names the permit that was recorded. */
  function PushToast(cached: Option<Permit>): (msg: string)
    ensures DisplayPermitToCommit(cached).None? <==> msg == "Display updated!"
  {
    match DisplayPermitToCommit(cached)
    case Some(p) => "New permit synced to display: " + p.permitNumber.value
    case None => "Display updated!"
  }
}
