/** Concrete runs of the classification and the report, worked out by the verifier. */
module Scenarios {
  import opened Wrappers
  import opened Decimal
  import opened Expiry
  import opened Items
  import opened Report

  /** A gap of exactly the threshold is not "good": it reads 28 days and needs notification. */
  lemma ThresholdIsNotGood(domain: string, now: int)
    ensures ExpiryInfo(now + NotifyExpiryThreshold, now) == "expires in 28 days"
    ensures Item(domain, now + NotifyExpiryThreshold, None).NeedsNotify(now)
    ensures !Item(domain, now + NotifyExpiryThreshold + 1, None).NeedsNotify(now)
  {
    assert DecimalString(28) == "28";
  }

  /** Exactly one day left uses the singular noun; ten days the plural. */
  lemma DayCounts(now: int)
    ensures ExpiryInfo(now + Day, now) == "expires in 1 day"
    ensures ExpiryInfo(now + 2 * Day - 1, now) == "expires in 1 day"
    ensures ExpiryInfo(now + 10 * Day, now) == "expires in 10 days"
  {
    assert DecimalString(1) == "1";
    assert DecimalString(10) == "10";
  }

  /** Less than a day, including no time at all, is not yet "expired". */
  lemma UnderADayBoundaries(now: int)
    ensures ExpiryInfo(now, now) == "expires in less than 24h"
    ensures ExpiryInfo(now + 18 * Hour, now) == "expires in less than 24h"
    ensures ExpiryInfo(now + Day - 1, now) == "expires in less than 24h"
    ensures ExpiryInfo(now - 1, now) == "expired"
    ensures ExpiryInfo(now - Hour, now) == "expired"
  {
  }

  /** One good certificate and one failed probe: a report naming both, in order. */
  lemma GoodAndTimeout(now: int)
    ensures !SkipReport([Item("a.example", now + 60 * Day, None),
                         Item("b.example", 0, Some("timeout"))], now)
    ensures Body([Item("a.example", now + 60 * Day, None),
                  Item("b.example", 0, Some("timeout"))], now)
         == "a.example: good\nb.example: timeout\n"
  {
    var items := [Item("a.example", now + 60 * Day, None), Item("b.example", 0, Some("timeout"))];
    assert items[..1] == [items[0]];
    assert items[..1][..0] == [];
    assert items[0].Line(now) == "a.example: good";
    assert Body(items[..1], now) == "a.example: good\n";
    assert items[1].Line(now) == "b.example: timeout";
  }

  /** Only good certificates: main stops without a report. */
  lemma AllGood(now: int)
    ensures SkipReport([Item("a.example", now + 60 * Day, None),
                        Item("b.example", now + 29 * Day, None)], now)
  {
  }
}
