/**
 * One probe result and the two things main.go asks of it: whether it is
 * worth a notification and how it reads in the report.
 */
module Items {
  import opened Wrappers
  import opened Expiry

  /**
   * A probe result (`Item`, main.go): the domain as read, the certificate's
   * `NotAfter` instant in nanoseconds, and the probe's error message, if any
   * (the text `err.Error()` would give).
   */
  datatype Item = Item(domain: string, end: int, err: Option<string>) {

    /** `needsNotify`: an error, or a certificate not good for more than the threshold. */
    function NeedsNotify(now: int): (r: bool)
      ensures r <==> err.Some? || end - now <= NotifyExpiryThreshold
    {
      if err.Some? then true
      else if end - now > NotifyExpiryThreshold then false
      else true
    }

    /** The report line `format` builds, without its terminating newline. */
    function Line(now: int): string {
      domain + ": " + (match err case Some(msg) => msg case None => ExpiryInfo(end, now))
    }

    /** `format`: writes the domain and ": ", then the error text or the classification. */
    method Format(now: int) returns (s: string)
      ensures s == Line(now)
    {
      var w := "";
      w := w + (domain + ": ");
      if err.Some? {
        w := w + err.value;
      } else {
        w := w + ExpiryInfo(end, now);
      }
      s := w;
    }
  }

  /**
   * For a result without error, needsNotify and expiryInfo agree on the
   * threshold: no notification exactly when the line says "good".
   */
  lemma NeedsNotifyIffNotGood(item: Item, now: int)
    requires item.err.None?
    ensures !item.NeedsNotify(now) <==> ExpiryInfo(item.end, now) == "good"
  {
  }

  /** A line starts with the domain and ": " and ends with the error text or the classification. */
  lemma LineShape(item: Item, now: int)
    ensures |item.Line(now)| >= |item.domain| + 2
    ensures item.Line(now)[..|item.domain| + 2] == item.domain + ": "
    ensures item.err.Some? ==> item.Line(now)[|item.domain| + 2..] == item.err.value
    ensures item.err.None? ==> item.Line(now)[|item.domain| + 2..] == ExpiryInfo(item.end, now)
  {
    var p := item.domain + ": ";
    var tail := match item.err case Some(msg) => msg case None => ExpiryInfo(item.end, now);
    assert item.Line(now) == p + tail;
    assert (p + tail)[..|p|] == p;
    assert (p + tail)[|p|..] == tail;
  }

  /** The error branch ignores the certificate's end and the current time. */
  lemma ErrorLineIgnoresTime(domain: string, msg: string, end1: int, now1: int, end2: int, now2: int)
    ensures Item(domain, end1, Some(msg)).Line(now1) == Item(domain, end2, Some(msg)).Line(now2)
  {
  }

  /** A line holds no newline unless its domain or its error text does. */
  lemma LineHasNoNewline(item: Item, now: int)
    requires '\n' !in item.domain
    requires item.err.Some? ==> '\n' !in item.err.value
    ensures '\n' !in item.Line(now)
  {
  }
}
