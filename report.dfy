/**
 * Aggregation in main.go: the universal quantifier `all`, the decision to
 * stop early when no item needs notification, and the report body.
 */
module Report {
  import opened Wrappers
  import opened Items

  /** `all`: does f hold of every element of s? Stops at the first element where it fails. */
  method All<E>(s: seq<E>, f: E -> bool) returns (r: bool)
    ensures r <==> forall k :: 0 <= k < |s| ==> f(s[k])
  {
    for i := 0 to |s|
      invariant forall k :: 0 <= k < i ==> f(s[k])
    {
      if !f(s[i]) {
        return false;
      }
    }
    return true;
  }

  /** True when main exits without a report: no item needs notification. */
  function SkipReport(items: seq<Item>, now: int): (r: bool)
    ensures r <==> forall k :: 0 <= k < |items| ==> !items[k].NeedsNotify(now)
  {
    if items == [] then true
    else !items[0].NeedsNotify(now) && SkipReport(items[1..], now)
  }

  /** The report body: every item's line, each followed by a newline, in input order. */
  function Body(items: seq<Item>, now: int): string {
    if items == [] then ""
    else Body(items[..|items| - 1], now) + items[|items| - 1].Line(now) + "\n"
  }

  /** `resultsBody`: appends each item's formatted line and a newline to a buffer. */
  method ResultsBody(items: seq<Item>, now: int) returns (body: string)
    ensures body == Body(items, now)
  {
    var buf := "";
    for i := 0 to |items|
      invariant buf == Body(items[..i], now)
    {
      assert items[..i + 1][..i] == items[..i];
      var line := items[i].Format(now);
      buf := buf + line;
      buf := buf + "\n";
    }
    assert items[..|items|] == items;
    body := buf;
  }

  /**
   * Lines 75-80 of main.go: the report is produced exactly when some item
   * needs notification, and it is then the body of all items.
   */
  method Decide(items: seq<Item>, now: int) returns (report: Option<string>)
    ensures report == if SkipReport(items, now) then None else Some(Body(items, now))
  {
    var noNotify := (i: Item) => !i.NeedsNotify(now);
    var skip := All(items, noNotify);
    if skip {
      return None;
    }
    var body := ResultsBody(items, now);
    return Some(body);
  }

  /** The body of a concatenation is the concatenation of the bodies. */
  lemma {:induction false} BodyAppend(a: seq<Item>, b: seq<Item>, now: int)
    ensures Body(a + b, now) == Body(a, now) + Body(b, now)
  {
    if b == [] {
      assert a + b == a;
    } else {
      var c := a + b;
      assert c[..|c| - 1] == a + b[..|b| - 1];
      assert c[|c| - 1] == b[|b| - 1];
      BodyAppend(a, b[..|b| - 1], now);
    }
  }

  /** The k-th item's line sits between the lines of the items before and after it. */
  lemma BodyAt(items: seq<Item>, k: nat, now: int)
    requires k < |items|
    ensures Body(items, now)
         == Body(items[..k], now) + items[k].Line(now) + "\n" + Body(items[k + 1..], now)
  {
    assert items == items[..k + 1] + items[k + 1..];
    BodyAppend(items[..k + 1], items[k + 1..], now);
    assert items[..k + 1][..k] == items[..k];
  }

  /** The body is empty exactly when there are no items. */
  lemma BodyEmptyIff(items: seq<Item>, now: int)
    ensures Body(items, now) == "" <==> items == []
  {
    if items != [] {
      assert Body(items, now)[|Body(items, now)| - 1] == '\n';
    }
  }

  /** With no newline inside domains or error texts, the body has one newline per item. */
  lemma {:induction false} BodyNewlines(items: seq<Item>, now: int)
    requires forall k :: 0 <= k < |items| ==> '\n' !in items[k].domain
    requires forall k :: 0 <= k < |items| ==>
               items[k].err.Some? ==> '\n' !in items[k].err.value
    ensures multiset(Body(items, now))['\n'] == |items|
  {
    if items != [] {
      var last := items[|items| - 1];
      LineHasNoNewline(last, now);
      BodyNewlines(items[..|items| - 1], now);
      assert Body(items, now) == Body(items[..|items| - 1], now) + last.Line(now) + "\n";
    }
  }
}
