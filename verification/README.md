# Brokencheck, modelled in Dafny

Brokencheck audits a list of web sites. It has two entry points:

- `index.js`, the crawl-only pipeline. It crawls each domain with the Linkinator link checker and collects the links reported as `BROKEN`. It writes them to `broken-links-report.csv`.
- `index.mjs`, the combined pipeline. It also re-probes every broken link whose status is 0, up to three times with a five-minute wait between attempts. It runs Lighthouse twice per domain, once for desktop and once for mobile, and summarises five key performance audits. It writes one row per broken link to `combined-report.csv`, each row carrying both Lighthouse results.

The repository's own logic is the list processing and retry control around those three external tools. This project models that logic and proves properties of it. Each external tool is an input:

- a crawl is a `CrawlOutcome`: it threw, or it completed after emitting a sequence of link events `{url, state, status, contentType}`;
- a re-probe is a `ProbeOutcome`, one per link position and attempt number: it threw, or it completed with its events;
- a Lighthouse run is an `AuditOutcome`: it failed, or it produced a performance score and an audit map;
- turning a number into text is a parameter `fmt: real -> string`.

The code is imperative, and so is the model. `checkDomain`, `retryWithDelay`, `retryBrokenLinks`, `parseLighthouseIssues`, the re-probe callback and both `processDomains` are methods with loops. Each method is proved equal to a specification function, and the lemmas state the properties of those functions.

Modules:
- `Wrappers` holds `Option`, which stands for a nullable value.
- `Links` holds the link-event filter of `checkDomain`. Both entry points share it.
- `Retry` holds `retryWithDelay`.
- `Coordinator` holds `retryBrokenLinks` and the re-probe callback.
- `Lighthouse` holds `parseLighthouseIssues` and the fallbacks of `runLighthouseDesktop`/`runLighthouseMobile`.
- `CrawlReport` holds `processDomains` of index.js.
- `CombinedReport` holds `processDomains` of index.mjs.

Three behaviours of the code are worth stating outright:
- A domain whose crawl throws gets no Lighthouse run, because both runs sit after the crawl in the same `try` (index.mjs:214-225). `CombinedReport.ProcessDomains` counts the runs accordingly.
- Only a throwing re-probe leads to another attempt. A re-probe that completes and reports status 0 again, or reports nothing, ends the retrying at once (`Coordinator.ReprobeReportingZeroStops`).
- The re-probe callback overwrites `retryStatus` on every link event it sees, so `retryStatus` keeps the status of the last event reported, whatever that event's URL (`Coordinator.OnReprobeEvents`).

## Model

| member | source | states |
|---|---|---|
| `Links.AssetType` | index.js:121 | The asset type is the content type when that is truthy, and `'unknown'` when it is missing or empty. It is never empty. |
| `Links.CheckDomain` | index.mjs:114-155 | If the crawl throws, nothing is returned (the exception propagates). Otherwise the result is the broken-link list of the crawl's events. |
| `Links.BrokenLinksOfAppend` | index.js:112-124 | Records keep the order in which events arrive: a later batch of events adds its records after those of an earlier batch. |
| `Links.BrokenLinksOfSingle` | index.mjs:127-139 | A single event yields its record `{domain, url, status, assetType}` exactly when its state is `BROKEN`, and nothing otherwise. |
| `Links.BrokenLinksOfMembers` | index.js:115-122 | A record is collected exactly when some `BROKEN` event produced it. Every record's source is the scanned domain. |
| `Links.BrokenLinksOfLength` | index.js:112-124 | There is one record per `BROKEN` event, so the list is never longer than the event stream. |
| `Retry.RetryFrom` | index.mjs:10-20 | Once the loop has started, it never falls out with `undefined`. It ends with a value or with `null`. |
| `Retry.RetryValue` | index.mjs:9-22 | The result is `undefined` exactly when the attempt budget is not positive. |
| `Retry.RetryWithDelay` | index.mjs:9-22 | The action runs between 1 and `retries` times. Every attempt but the last one threw. A returned value is the last attempt's value. The catch's `null` (`Exhausted`) means all `retries` attempts threw. A `null` the action itself returned (`Value(None)`) comes back as a value after an attempt that did not throw; the caller cannot tell the two apart. The time waited is `(calls - 1) * delayMs`. |
| `Retry.RetryReturnsFirstValue` | index.mjs:10-12 | Retrying stops at the first attempt that does not throw and returns that attempt's value, whatever later attempts would do. |
| `Retry.RetryExhaustedIff` | index.mjs:13-18 | With a positive budget, the result is the catch's `null` (`Exhausted`, and nothing is thrown) exactly when every attempt threw. A `null` returned by the action is a different case, `Value(None)`. |
| `Retry.RetryValueWitness` | index.mjs:9-13 | Any value returned is the value of some attempt within the budget, and every earlier attempt threw. |
| `Coordinator.OnReprobeEvents` | index.mjs:166-176 | `retryStatus` is null exactly when the re-probe reported no event. Otherwise it is the status of the last event reported. |
| `Coordinator.RetryOne` | index.mjs:162-203 | A link's source, page and asset type never change. A link whose error is not 0 is returned unchanged. |
| `Coordinator.RetryBrokenLinks` | index.mjs:158-208 | Exactly one record per input link, in input order. Each link is retried on its own. `probes[k]` counts the k-th link's re-probes: 1 to 3 for a status-0 link, every one but the last having thrown, and none for any other link. |
| `Coordinator.RetryOneChangesOnlyError` | index.mjs:190-197 | A record differs from its input only for a status-0 link, and then only in `error`. The new error is a status that some attempt within the budget returned, every earlier attempt having thrown. |
| `Coordinator.RetryOneAllThrewKeepsLink` | index.mjs:195-197 | When all three re-probes throw, the original record is kept, with error 0. |
| `Coordinator.RetryOneTakesFirstCompletedProbe` | index.mjs:164-194 | When attempts before k throw and attempt k completes, the record takes the status of that attempt's last event. If that attempt reported no event, the record stays as it was. |
| `Coordinator.ReprobeReportingZeroStops` | index.mjs:167-194 | A first re-probe that completes and reports status 0 again resolves the retry to 0 at once. The record keeps error 0. |
| `Lighthouse.ParseLighthouseIssues` | index.mjs:47-77 | The summary returned is the checklist summary of the audit map. |
| `Lighthouse.ActionableAppend` | index.mjs:60-69 | Items follow checklist order: the items of a later part of the checklist come after those of an earlier part. |
| `Lighthouse.ActionableMembers` | index.mjs:60-69 | An item is collected exactly for each checklist entry that is present with a non-null score below 1. The number of items equals the number of such entries. |
| `Lighthouse.NoIssuesIff` | index.mjs:71-73 | The summary is `'No significant issues detected.'` exactly when none of the five key audits is present with a non-null score below 1. |
| `Lighthouse.IssuesSummaryEntries` | index.mjs:75-76 | When at least one key audit is flagged, the summary joins with `'; '` the rendered items, in checklist order. Their number equals the number of flagged key audits, between 1 and 5. |
| `Lighthouse.RunLighthouse` | index.mjs:80-94 | The run never throws. The score is `'N/A'` exactly when the run failed. A failed run's issues are `'Failed to run Lighthouse (<profile>)'`. A successful run's issues are the audit summary. |
| `Lighthouse.FailureTextNeverASummary` | index.mjs:88-92 | A failed run's issue text, for either profile, never equals the issue summary of a run that completed. The issues column alone therefore tells failed runs apart, as the `'N/A'` score does. |
| `CrawlReport.ProcessDomains` | index.js:142-163 | The accumulated list is the per-domain lists concatenated in domain order. It goes to the writer exactly when it is non-empty. |
| `CrawlReport.AllBrokenLinksAppend` | index.js:145-154 | The records of later domains follow those of earlier domains. |
| `CrawlReport.ThrowingScanAddsNothing` | index.js:146-153 | A domain whose scan throws adds nothing, and the domains after it are still scanned. |
| `CrawlReport.AllBrokenLinksOrigin` | index.js:145-150 | Every accumulated record comes from a `BROKEN` event of a domain whose scan completed, and its source is that domain. |
| `CrawlReport.NothingWrittenIff` | index.js:157-162 | Nothing is written exactly when every domain either threw or reported no `BROKEN` event. |
| `CombinedReport.MergeRows` | index.mjs:228-239 | One row per retried link, in order. Each row takes the link's page, error and asset type, plus the domain's desktop and mobile results. |
| `CombinedReport.ProcessDomain` | index.mjs:214-244 | One pass of the domain loop appends exactly the domain's rows. Lighthouse runs exactly when the crawl completed. |
| `CombinedReport.ProcessDomains` | index.mjs:210-254 | The rows are the per-domain rows concatenated in domain order. They go to the writer exactly when non-empty. Lighthouse runs twice per domain whose crawl completed. |
| `CombinedReport.AllRowsAppend` | index.mjs:213-245 | The rows of later domains follow those of earlier domains. |
| `CombinedReport.ThrowingSiteAddsNothing` | index.mjs:242-244 | A domain whose crawl throws adds no rows, and later domains are still processed. |
| `CombinedReport.RowOrigin` | index.mjs:221-239 | Every row names a domain whose crawl completed. It carries that domain's desktop and mobile results, with `'N/A'` and the failure text for a failed profile. |
| `CombinedReport.CombinedMatchesCrawlOnly` | index.mjs:213-239 | For the same domains and crawls, the combined rows match the crawl-only records one to one and in order. Source, page and asset type are equal. Only the error of a status-0 record can differ. |

## Left out

- The Linkinator crawl itself, with its recursion, concurrency, timeout and user agent. It is an external tool, so it enters the model only as a completed event sequence or a throw. Events emitted before a crawl throws are not modelled, because the code discards them along with the exception.
- The Lighthouse subprocess, `exec`, its 10 MB buffer and `JSON.parse`. They are I/O and foreign code. Every exception they raise is the single outcome `AuditFailed`.
- Floating-point arithmetic and the rendering of numbers. Scores are exact reals, `score * 100` is real multiplication, and the rendered text is the parameter `fmt`.
- `Lighthouse.ScaledScore` covers a null category score, which JavaScript turns into 0. It does not cover an `undefined` category score, which would give `NaN`.
- The `setTimeout` wait, which is timing only. Only the milliseconds waited are counted.
- The CSV writer and its column definitions. The writer is an external library, so the model returns the list handed to it, or nothing when it is not called.
- Console logging and the hard-coded domain lists, which are glue and data.
- The `catch` block of `retryBrokenLinks` (index.mjs:198-201). `retryWithDelay` never throws, so it cannot run, and it would keep the original record just as the `null` branch does.
- The unused `domain` parameter of `retryBrokenLinks`.
- An audit whose `score` field is missing. It behaves like a null score, because `undefined < 1` is false.
