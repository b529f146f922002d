/**
 * Classification of a certificate's remaining validity (main.go).
 *
 * Instants and durations are integers counting nanoseconds, as Go's
 * `time.Duration` does; `end - now` stands for `end.Sub(now)`.
 */
module Expiry {
  import opened Decimal

  /** `time.Hour` in nanoseconds. */
  const Hour: int := 3_600_000_000_000
  /** `24 * time.Hour`, the length of one day in the report. */
  const Day: int := 24 * Hour
  /** `notifyExpiryThreshold`: a gap longer than this needs no notification. */
  const NotifyExpiryThreshold: int := 28 * Day

  /** `pluralize`: the noun as it follows the count n. */
  function Pluralize(n: int, noun: string): (r: string)
    ensures |r| >= |noun| && r[..|noun|] == noun
    ensures r == noun <==> n == 1
    ensures r != noun ==> r == noun + "s"
  {
    if n == 1 then noun else noun + "s"
  }

  /** `expiryInfo`: the report text for a certificate valid until `end`. */
  function ExpiryInfo(end: int, now: int): (r: string)
    ensures r == "good" <==> end - now > NotifyExpiryThreshold
    ensures r == "expired" <==> end - now < 0
    ensures '\n' !in r
  {
    var gap := end - now;
    if gap > NotifyExpiryThreshold then "good"
    else if gap < 0 then "expired"
    else if gap < Day then "expires in less than 24h"
    else
      var n := gap / Day;
      "expires in " + DecimalString(n) + " " + Pluralize(n, "day")
  }

  /**
   * The urgency buckets in which a gap can fall, described independently of
   * the switch in ExpiryInfo: which bucket a gap falls in is stated by
   * InBucket, what the report says about it by Text.
   */
  datatype Urgency = Good | Expired | UnderADay | Days(n: nat)

  predicate InBucket(gap: int, u: Urgency) {
    match u
    case Good => gap > NotifyExpiryThreshold
    case Expired => gap < 0
    case UnderADay => 0 <= gap < Day
    case Days(n) =>
      1 <= n && n * Day <= gap < (n + 1) * Day && gap <= NotifyExpiryThreshold
  }

  function Text(u: Urgency): string {
    match u
    case Good => "good"
    case Expired => "expired"
    case UnderADay => "expires in less than 24h"
    case Days(n) => "expires in " + DecimalString(n) + " " + Pluralize(n, "day")
  }

  /** Every gap falls in some bucket. */
  lemma BucketExists(gap: int)
    ensures exists u :: InBucket(gap, u)
  {
    if Day <= gap <= NotifyExpiryThreshold {
      var n := gap / Day;
      assert InBucket(gap, Days(n));
    } else if gap > NotifyExpiryThreshold {
      assert InBucket(gap, Good);
    } else if gap < 0 {
      assert InBucket(gap, Expired);
    } else {
      assert InBucket(gap, UnderADay);
    }
  }

  /** The whole number of days n with n * Day <= gap < (n + 1) * Day is gap / Day. */
  lemma FloorDays(gap: int, n: int)
    requires n * Day <= gap < (n + 1) * Day
    ensures gap / Day == n
  {
  }

  /** No gap falls in two buckets. */
  lemma BucketUnique(gap: int, u: Urgency, v: Urgency)
    requires InBucket(gap, u) && InBucket(gap, v)
    ensures u == v
  {
    if u.Days? && v.Days? {
      FloorDays(gap, u.n);
      FloorDays(gap, v.n);
    }
  }

  /** A gap within the threshold but at least a day long counts 1 to 28 days. */
  lemma DaysBound(gap: int, n: nat)
    requires InBucket(gap, Days(n))
    ensures 1 <= n <= 28
  {
  }

  /** ExpiryInfo reports the text of the bucket its gap falls in. */
  lemma ExpiryInfoDescribes(end: int, now: int, u: Urgency)
    requires InBucket(end - now, u)
    ensures ExpiryInfo(end, now) == Text(u)
  {
    if u.Days? {
      FloorDays(end - now, u.n);
    }
  }

  /** A number followed by a space can be split off unambiguously. */
  lemma NumberBeforeSpace(a: string, b: string, c: string, d: string)
    requires AllDigits(a) && AllDigits(c)
    requires a + " " + b == c + " " + d
    ensures a == c
  {
    var x := a + " " + b;
    assert x[|a|] == ' ' && x[|c|] == ' ';
    assert forall k :: 0 <= k < |a| ==> x[k] == a[k];
    assert forall k :: 0 <= k < |c| ==> x[k] == c[k];
    assert |a| == |c|;
    assert a == x[..|a|];
    assert c == x[..|c|];
  }

  /** A day count is reported as "expires in " followed by its first digit. */
  lemma DaysTextShape(u: Urgency)
    ensures u.Days? ==> |Text(u)| > 11 && Text(u)[..11] == "expires in " && IsDigit(Text(u)[11])
  {
    if u.Days? {
      assert Text(u)[11] == DecimalString(u.n)[0];
    }
  }

  /** Different buckets are reported with different texts. */
  lemma TextInjective(u: Urgency, v: Urgency)
    ensures Text(u) == Text(v) <==> u == v
  {
    if u.Days? && v.Days? {
      if Text(u) == Text(v) {
        var prefix := "expires in ";
        var su, sv := DecimalString(u.n), DecimalString(v.n);
        var pu, pv := Pluralize(u.n, "day"), Pluralize(v.n, "day");
        assert Text(u) == prefix + (su + " " + pu);
        assert Text(v) == prefix + (sv + " " + pv);
        assert su + " " + pu == Text(u)[|prefix|..] == sv + " " + pv;
        NumberBeforeSpace(su, pu, sv, pv);
        DecimalStringInjective(u.n, v.n);
      }
    } else {
      DaysTextShape(u);
      DaysTextShape(v);
    }
  }

  /** Two gaps get the same report text exactly when they fall in the same bucket. */
  lemma ExpiryInfoSameIffSameBucket(end1: int, now1: int, u1: Urgency,
                                    end2: int, now2: int, u2: Urgency)
    requires InBucket(end1 - now1, u1) && InBucket(end2 - now2, u2)
    ensures ExpiryInfo(end1, now1) == ExpiryInfo(end2, now2) <==> u1 == u2
  {
    ExpiryInfoDescribes(end1, now1, u1);
    ExpiryInfoDescribes(end2, now2, u2);
    TextInjective(u1, u2);
  }
}
