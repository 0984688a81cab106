/** `TimeUtils.getRelativeTime`: a timestamp rendered as "Never", "Just now" or
    "<n> <unit> ago". The clock read becomes the parameter `now`. */
module TimeUtils {
  import opened JavaLang

  /** `getRelativeTime(timestamp)` as written. */
  function RelativeTime(timestamp: int, now: int): (r: string)
    ensures r == "Never" <==> timestamp == 0
    ensures timestamp != 0 && now - timestamp < 5000 ==> r == "Just now"
  {
    if timestamp == 0 then "Never" else LabelForDiff(now - timestamp)
  }

  /** The rest of `getRelativeTime` once `diff = now - timestamp` is known:
      truncating divisions chained from milliseconds down to days, then an if/else
      chain over the buckets. */
  function LabelForDiff(diff: int): (r: string)
    ensures |r| >= 8
    ensures r == "Just now" <==> diff < 5000
  {
    if diff < 0 then "Just now"
    else
      var seconds := Quot(diff, 1000);
      var minutes := Quot(seconds, 60);
      var hours := Quot(minutes, 60);
      var days := Quot(hours, 24);
      if seconds < 5 then "Just now"
      else if seconds < 60 then LongToString(seconds) + " sec ago"
      else if minutes < 60 then (if minutes == 1 then "1 min ago" else LongToString(minutes) + " min ago")
      else if hours < 24 then (if hours == 1 then "1 hour ago" else LongToString(hours) + " hours ago")
      else if days < 7 then (if days == 1 then "1 day ago" else LongToString(days) + " days ago")
      else
        var weeks := Quot(days, 7);
        if weeks == 1 then "1 week ago" else LongToString(weeks) + " weeks ago"
  }

  // ---------------------------------------------------------------- reference

  datatype Unit = Sec | Min | Hour | Day | Week

  /** How long ago something happened, as the label reports it. */
  datatype Elapsed = Never | JustNow | Ago(count: nat, unit: Unit)

  /** One day in milliseconds, `1000 * 60 * 60 * 24`. */
  const DayMs := 86400000

  function UnitMs(u: Unit): nat {
    match u
    case Sec => 1000
    case Min => 60000
    case Hour => 3600000
    case Day => DayMs
    case Week => 604800000
  }

  /** The bucket a timestamp falls in, read off the milliseconds directly: the
      count is the number of whole units elapsed. */
  function Classify(timestamp: int, now: int): (e: Elapsed)
    ensures e == Never <==> timestamp == 0
    ensures e == JustNow <==> timestamp != 0 && now - timestamp < 5000
    ensures e.Ago? ==> e.count * UnitMs(e.unit) <= now - timestamp < (e.count + 1) * UnitMs(e.unit)
    ensures e.Ago? && e.unit == Sec ==> 5 <= e.count < 60
    ensures e.Ago? && e.unit == Min ==> 1 <= e.count < 60
    ensures e.Ago? && e.unit == Hour ==> 1 <= e.count < 24
    ensures e.Ago? && e.unit == Day ==> 1 <= e.count < 7
    ensures e.Ago? && e.unit == Week ==> 1 <= e.count
  {
    if timestamp == 0 then Never else BucketOf(now - timestamp)
  }

  function BucketOf(diff: int): (e: Elapsed)
    ensures e != Never
    ensures e == JustNow <==> diff < 5000
    ensures e.Ago? ==> e.count * UnitMs(e.unit) <= diff < (e.count + 1) * UnitMs(e.unit)
    ensures e.Ago? && e.unit == Sec ==> 5 <= e.count < 60
    ensures e.Ago? && e.unit == Min ==> 1 <= e.count < 60
    ensures e.Ago? && e.unit == Hour ==> 1 <= e.count < 24
    ensures e.Ago? && e.unit == Day ==> 1 <= e.count < 7
    ensures e.Ago? && e.unit == Week ==> 1 <= e.count
  {
    if diff < 5000 then JustNow
    else if diff < 60000 then WholeUnits(diff, Sec)
    else if diff < 3600000 then WholeUnits(diff, Min)
    else if diff < 86400000 then WholeUnits(diff, Hour)
    else if diff < 604800000 then WholeUnits(diff, Day)
    else WholeUnits(diff, Week)
  }

  /** The number of whole units in `diff` milliseconds. */
  function WholeUnits(diff: nat, u: Unit): (e: Elapsed)
    ensures e.Ago? && e.unit == u
    ensures e.count * UnitMs(u) <= diff < (e.count + 1) * UnitMs(u)
    ensures diff >= UnitMs(u) ==> e.count >= 1
    ensures forall k: nat :: diff < k * UnitMs(u) ==> e.count < k
  {
    var n := diff / UnitMs(u);
    assert diff == n * UnitMs(u) + diff % UnitMs(u);
    assert forall k: nat :: diff < k * UnitMs(u) ==> n < k by {
      forall k: nat | diff < k * UnitMs(u) ensures n < k {
        if n >= k {
          MulMonotone(k, n, UnitMs(u));
          assert false;
        }
      }
    }
    assert diff >= UnitMs(u) ==> n >= 1;
    Ago(n, u)
  }

  /** The label for a bucket; hours, days and weeks take the singular for 1. */
  function Render(e: Elapsed): string {
    match e
    case Never => "Never"
    case JustNow => "Just now"
    case Ago(n, u) => NatToString(n) + Suffix(n, u)
  }

  function Suffix(n: nat, u: Unit): (s: string)
    ensures |s| > 1 && s[0] == ' '
  {
    match u
    case Sec => " sec ago"
    case Min => " min ago"
    case Hour => if n == 1 then " hour ago" else " hours ago"
    case Day => if n == 1 then " day ago" else " days ago"
    case Week => if n == 1 then " week ago" else " weeks ago"
  }

  /** Reads a label back; the inverse of `Render`. */
  function Parse(s: string): Option<Elapsed> {
    if s == "Never" then Some(Never)
    else if s == "Just now" then Some(JustNow)
    else
      var digits := Before(s, ' ');
      if digits == [] || !IsDigits(digits) then None
      else
        var n := DigitsValue(digits);
        match ParseSuffix(n, s[|digits|..])
        case None => None
        case Some(u) => Some(Ago(n, u))
  }

  /** The unit named by the text after the count. */
  function ParseSuffix(n: nat, rest: string): (u: Option<Unit>)
    ensures u.Some? ==> rest == Suffix(n, u.value)
  {
    if rest == Suffix(n, Sec) then Some(Sec)
    else if rest == Suffix(n, Min) then Some(Min)
    else if rest == Suffix(n, Hour) then Some(Hour)
    else if rest == Suffix(n, Day) then Some(Day)
    else if rest == Suffix(n, Week) then Some(Week)
    else None
  }

  lemma ParseSuffixOf(n: nat, u: Unit)
    ensures ParseSuffix(n, Suffix(n, u)) == Some(u)
  {
    match u
    case Sec =>
    case Min => assert Suffix(n, u)[1] == 'm';
    case Hour => assert Suffix(n, u)[1] == 'h';
    case Day => assert Suffix(n, u)[1] == 'd';
    case Week => assert Suffix(n, u)[1] == 'w';
  }

  lemma {:induction false} BeforeDigits(digits: string, rest: string)
    requires IsDigits(digits) && rest != [] && rest[0] == ' '
    ensures Before(digits + rest, ' ') == digits
  {
    if digits != [] {
      assert (digits + rest)[0] == digits[0];
      assert (digits + rest)[1..] == digits[1..] + rest;
      BeforeDigits(digits[1..], rest);
    }
  }

  /** Every label reads back as the bucket it was rendered from, so two different
      buckets never share a label. */
  lemma {:induction false} ParseRender(e: Elapsed)
    ensures Parse(Render(e)) == Some(e)
  {
    match e
    case Never =>
    case JustNow =>
    case Ago(n, u) =>
      var digits := NatToString(n);
      var s := Render(e);
      assert s == digits + Suffix(n, u);
      BeforeDigits(digits, Suffix(n, u));
      NatToStringRoundTrip(n);
      assert s[|digits|..] == Suffix(n, u);
      ParseSuffixOf(n, u);
      assert s != "Never" && s != "Just now" by {
        assert s[0] == digits[0];
        assert "Never"[0] == 'N' && "Just now"[0] == 'J';
      }
  }

  lemma RenderInjective(a: Elapsed, b: Elapsed)
    requires Render(a) == Render(b)
    ensures a == b
  {
    ParseRender(a);
    ParseRender(b);
  }

  // ---------------------------------------------------------------- agreement

  lemma DivDiv(a: nat, b: nat, c: nat)
    requires b > 0 && c > 0
    ensures (a / b) / c == a / (b * c)
  {
    var q, r := a / (b * c), a % (b * c);
    assert a == q * (b * c) + r && 0 <= r < b * c;
    var r1, r2 := r / b, r % b;
    assert r == r1 * b + r2 && 0 <= r2 < b;
    assert r1 < c by {
      if r1 >= c {
        MulMonotone(c, r1, b);
        assert false;
      }
    }
    assert a == (q * c + r1) * b + r2 by {
      assert q * (b * c) == (q * c) * b;
      assert (q * c + r1) * b == (q * c) * b + r1 * b;
    }
    assert a / b == q * c + r1 by { DivOfDecomposition(a, b, q * c + r1, r2); }
    DivOfDecomposition(a / b, c, q, r1);
  }

  lemma DivOfDecomposition(a: int, b: int, q: int, r: int)
    requires b > 0 && 0 <= r < b && a == q * b + r
    ensures a / b == q
  {
    var q0 := a / b;
    var r0 := a % b;
    assert a == q0 * b + r0;
    if q0 < q {
      MulMonotone(q0 + 1, q, b);
      assert false;
    } else if q0 > q {
      MulMonotone(q + 1, q0, b);
      assert false;
    }
  }

  /** The chained truncating divisions are divisions of the whole difference. */
  lemma ChainedDivisions(diff: nat)
    ensures Quot(diff, 1000) == diff / 1000
    ensures Quot(Quot(diff, 1000), 60) == diff / 60000
    ensures Quot(Quot(Quot(diff, 1000), 60), 60) == diff / 3600000
    ensures Quot(Quot(Quot(Quot(diff, 1000), 60), 60), 24) == diff / 86400000
    ensures Quot(Quot(Quot(Quot(Quot(diff, 1000), 60), 60), 24), 7) == diff / 604800000
  {
    DivDiv(diff, 1000, 60);
    DivDiv(diff, 60000, 60);
    DivDiv(diff, 3600000, 24);
    DivDiv(diff, 86400000, 7);
  }

  /** The source's chain of truncating divisions yields exactly the reference
      bucket: the label is always `Render(Classify(timestamp, now))`. */
  lemma RelativeTimeMeaning(timestamp: int, now: int)
    ensures RelativeTime(timestamp, now) == Render(Classify(timestamp, now))
  {
    if timestamp != 0 {
      LabelOfChain(now - timestamp);
    }
  }

  lemma LabelOfChain(diff: int)
    ensures LabelForDiff(diff) == Render(BucketOf(diff))
  {
    if diff >= 0 {
      ChainedDivisions(diff);
      assert NatToString(1) == "1";
    }
  }

  /** The label of any input names exactly one bucket. */
  lemma LabelIdentifiesBucket(timestamp: int, now: int)
    ensures Parse(RelativeTime(timestamp, now)) == Some(Classify(timestamp, now))
  {
    RelativeTimeMeaning(timestamp, now);
    ParseRender(Classify(timestamp, now));
  }
}
