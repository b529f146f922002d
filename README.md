# notafter: certificate-expiry decision and report

`notafter` probes the TLS certificates of a list of domains and mails a
report when any of them has expired, expires soon, or could not be probed.
This project models, in Dafny, the part of `main.go` that turns the probe
results into that decision and that report:

- the threshold `notifyExpiryThreshold` of 28 days (`Expiry.NotifyExpiryThreshold`),
  with instants and durations as integer nanoseconds, as Go's `time.Duration` counts them;
- `expiryInfo`, which classifies the gap `end - now` as `"good"`, `"expired"`,
  `"expires in less than 24h"` or `"expires in N day(s)"`, with `pluralize`
  and the `%d` rendering of N (module `Decimal`);
- the probe result `Item` with its methods `needsNotify` and `format`;
- `resultsBody`, the generic `all`, and the early exit of `main` when no
  item needs notification (lines 75-80).

Every classification is also described independently by `Expiry.Urgency`
and `Expiry.InBucket`: which bucket a gap falls in, stated by inequalities
rather than by the order of the `switch`, so that the day count N is
characterised as the floor (`N * Day <= gap < (N + 1) * Day`). The lemmas
prove that the buckets partition all gaps, that `ExpiryInfo` prints the
text of the gap's bucket, and that different buckets print differently.

The model follows `main.go` where other descriptions of the program differ:
the threshold is 28 days; the words are `"good"`, `"expired"` and
`"expires in less than 24h"`; and a gap of exactly the threshold is not
`"good"` (`gap > notifyExpiryThreshold` is the test in both `needsNotify`
and `expiryInfo`), so it reads `"expires in 28 days"` and needs notification.

Modules: `Wrappers` (Option), `Decimal`, `Expiry`, `Items`, `Report`, and
`Scenarios` (concrete inputs worked out by the verifier).

## Model

| member | source | states |
|---|---|---|
| `Decimal.DecimalString` | main.go:145 | `%d` of a natural number: at least one character, only decimal digits, no leading zero for a positive number, a single digit exactly below 10 |
| `Decimal.ParseDecimalString` | main.go:145 | reading the printed digits back gives the number printed |
| `Decimal.DecimalStringInjective` | main.go:145 | two numbers print alike exactly when they are equal |
| `Expiry.Pluralize` | main.go:183-188 | the result always starts with the noun; it is the bare noun exactly when n is 1, and otherwise the noun followed by "s" |
| `Expiry.ExpiryInfo` | main.go:134-147 | the text is "good" exactly when the gap exceeds the threshold, "expired" exactly when the gap is negative, and never contains a newline |
| `Expiry.BucketExists` | main.go:136-146 | every gap falls in some urgency bucket: the switch is total |
| `Expiry.BucketUnique` | main.go:136-146 | no gap falls in two buckets, so the classification is determined by the gap |
| `Expiry.FloorDays` | main.go:144 | for a gap between n and n + 1 days, gap / Day is n: the division is the floor |
| `Expiry.DaysBound` | main.go:143-145 | a gap of at least a day and at most the threshold counts between 1 and 28 days |
| `Expiry.ExpiryInfoDescribes` | main.go:134-147 | the text for a gap is the text of its bucket: over the threshold "good", negative "expired", 0 up to a day "expires in less than 24h", otherwise "expires in " + N + " " + "day"/"days" with N the floor of the days |
| `Expiry.TextInjective` | main.go:137-145 | two buckets get the same text exactly when they are the same bucket |
| `Expiry.ExpiryInfoSameIffSameBucket` | main.go:134-147 | two gaps get the same text exactly when they fall in the same bucket |
| `Items.Item.NeedsNotify` | main.go:113-121 | true exactly when the item carries an error or its gap is at most the threshold |
| `Items.Item.Format` | main.go:123-132 | builds the item's report line: the domain, ": ", then the error text or the classification |
| `Items.NeedsNotifyIffNotGood` | main.go:113-121 | for an item without error, no notification exactly when expiryInfo says "good" (the comparisons at lines 117 and 137 agree) |
| `Items.LineShape` | main.go:123-132 | the line is the domain and ": " followed by the error text verbatim when there is an error and by the classification otherwise |
| `Items.ErrorLineIgnoresTime` | main.go:126-127 | the line of an item with an error depends on neither its end nor the current time |
| `Items.LineHasNoNewline` | main.go:123-132 | a line holds no newline unless its domain or error text does |
| `Report.All` | main.go:190-197 | true exactly when f holds of every element; true for an empty sequence |
| `Report.SkipReport` | main.go:75-78 | main exits without a report exactly when no item needs notification |
| `Report.ResultsBody` | main.go:92-99 | the buffer ends up as every item's line followed by a newline, concatenated in input order |
| `Report.Decide` | main.go:75-80 | no report when no item needs notification; otherwise the report is the results body of all items |
| `Report.BodyAppend` | main.go:92-99 | the body of two item sequences in a row is the two bodies in a row |
| `Report.BodyAt` | main.go:92-99 | the k-th item's line, with its newline, sits between the bodies of the items before and after it |
| `Report.BodyEmptyIff` | main.go:92-99 | the body is empty exactly when there are no items |
| `Report.BodyNewlines` | main.go:92-99 | when no domain or error text contains a newline, the body contains exactly one newline per item |
| `Scenarios.ThresholdIsNotGood` | main.go:117 | a gap of exactly 28 days reads "expires in 28 days" and needs notification; one nanosecond more needs none |
| `Scenarios.DayCounts` | main.go:143-145 | one day and just under two days read "expires in 1 day"; ten days "expires in 10 days" |
| `Scenarios.UnderADayBoundaries` | main.go:139-142 | a gap of 0, 18 hours or a day less a nanosecond reads "expires in less than 24h"; one nanosecond or an hour past the end reads "expired" |
| `Scenarios.GoodAndTimeout` | main.go:75-99 | a good certificate and a timed-out probe give a report, "a.example: good\nb.example: timeout\n" |
| `Scenarios.AllGood` | main.go:75-78 | two certificates good for more than 28 days give no report |

`ResultsBody` and `Decide` are functions of their inputs only, so the same
items and the same `now` give the same report every time.

## Left out

- `getCertEnd` (main.go:149-172): a TLS dial over the network with a 5-second timeout; its outcome is represented only by the `Item` it yields.
- The goroutine per domain and the `sync.WaitGroup` barrier (main.go:62-73): the model starts from the items after the barrier, a sequence in the order of the domains.
- `sendMail` (main.go:101-105) and the printing of the body to standard output (main.go:83): external command and I/O; `Decide` returns the body they would receive.
- Flag parsing, `usage`, `os.Exit`, `log.Fatal`, including the refusal of an empty domain list (main.go:33-60, 86-89): process glue. On an empty list `Decide` gives no report.
- `domains` (main.go:174-181): reading lines through `bufio.Scanner` and `strings.TrimSpace` depends on library behaviour that is not part of this model.
- `time.Now` and the saturation of `time.Time.Sub` on overflow: `now` and `end` are parameters and `end - now` is exact integer subtraction.
- Report.All: does not state that it stops at the first failing element, because the predicate is pure and that is not observable in its result.
- The `error` interface is modelled by the message `err.Error()` would return.
