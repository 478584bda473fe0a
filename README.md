# Remote job scraper: aggregation core in Dafny

This project models the aggregation logic of a remote-job scraper written in
TypeScript. Everything that talks to a browser, a site or a database is left
out. Four pieces are modelled.

- **Posted-date normalisation** (`date_patterns.dfy`, `date_normalizer.dfy`).
  - `standardizePostedDate` turns free text into an absolute instant.
  - `toRelativePostedDate` and `getRelativeFromDates` turn it into a relative
    phrase.
  - Each regular expression is written as a matcher over `seq<char>`.
  - The unanchored searches are modelled as leftmost searches.
  - Instants are integer milliseconds.
  - The engine's `Date` primitives (`Date.parse`, the local-time setters and
    `toISOString`) are a parameter, `Clock`, about which nothing is assumed, except that `toISOString` never returns the empty string (`StandardizeDatesTotal`).
- **Orchestration** (`scraper.dfy`, class `JobBoardScraper`).
  - `retryOperation`: the retry loop with linear backoff.
  - `scrapeJobs`: the loop over site names against the adapter registry that
    `initializeScrapers` builds.
  - `getJobStats`: the three count maps.
  - The `postedDate` rewrite that `saveJobs` applies before writing its file.
  - What an adapter returns is read off a `World` function. Its argument is the
    adapter's key, the request, and the number of adapter calls made before.
  - Every `delay(ms)` is recorded in a ghost log instead of sleeping.
- **Persistence** (`job_store.dfy`, class `JobTable`).
  - `cleanJob` normalises a job into a row.
  - `saveJobsToDb` upserts the valid jobs into a table keyed by trimmed url.
  - The table is a `map<string, Row>` field.
  - Which upserts the database refuses by throwing is a parameter, `rejects`.
- **Shared pieces**.
  - `wrappers.dfy`: `Option` and `Result`.
  - `text.dfy`: JavaScript `trim`, `toLowerCase`, `\d`, `parseInt` and decimal
    rendering.
  - `job_types.dfy`: the `Job` record.

Each imperative operation is a method proved against a specification function.
- `RetryOperation` is proved against `Retry`.
- `ScrapeJobs` is proved against `ScrapeSites`.
- `GetJobStats` is proved against `Stats`.
- `SaveJobsToDb` is proved against `SaveBatch`.

The lemmas then state what those functions promise.

Some behaviours of the source are modelled as they are, and the lemmas state them:
- The shorthand search `(\d+)\s*(d|day|days|m|month|months|y|year|years)` runs before the hedged search, and it is unanchored. So `"about 2 months"`, and also `"5 minutes"` and `"10 minute"`, move the reference back in months (`HedgedRule`, `StandardizeHedged`).
- `"N months ago"` and `"N years ago"`, which `getRelativeFromDates` itself produces, match no rule of `toRelativePostedDate`. They reach `Date.parse` (`CanonicalMonthsYears`). Only `"today"`, `"yesterday"` and `"N days ago"` are fixed points.
- `Math.floor` of a millisecond difference divided by a day is Dafny's `/` on `int`, because the divisor is positive. In floating point the subtraction is exact below 2^53 ms (about 9.007e15 ms), and the division cannot round up to the next whole day below 2^27 days (about 1.16e16 ms). Only pairs of instants more than 2^53 ms apart, near opposite ends of the valid range (±8.64e15 ms), can be counted a day too many.
- `toRelativePostedDate` against an Invalid Date reference answers `NaN years ago` for any date it leaves to `Date.parse`: every comparison on a `NaN` day count is false (`RelativeFrom`).

## Model

| member | source | states |
|---|---|---|
| DateNormalizer.StandardizePostedDate | JobScraper.ts:1247-1325 | defined by the rule chain: the rule a text falls under, then its instant; characterised by StandardizeFallsBack, StandardizeKeywords, StandardizeUnitsAgo, StandardizeShorthand and StandardizeHedged |
| DateNormalizer.StandardizeRule | JobScraper.ts:1248-1258 | defined as blank, parsed or the text rules, in that order; characterised by StandardizeFallsBack |
| DateNormalizer.TextRule | JobScraper.ts:1260-1321 | defined as the keyword, ago, shorthand and hedged rules in source order; characterised by KeywordRules, UnitsAgoRule, ShorthandRule, HedgedRule and ApproximateOnlyWeeksHoursSeconds |
| DateNormalizer.ToRelativePostedDate | JobScraper.ts:1331-1377 | defined by the blank test and the rule chain; characterised by RelativeBlank, the Relative* rule lemmas, RelativeIsPhrase and the Canonical* fixed points |
| DateNormalizer.RelativeText | JobScraper.ts:1336-1376 | defined as the eight anchored rules in source order, then `Date.parse`; characterised by RelativeIsoRule, RelativeUnmatched and the rule lemmas |
| DateNormalizer.RelativeFromDates | JobScraper.ts:1382-1393 | defined by the day count and its buckets; characterised by RelativeBuckets and RelativeFromDatesIsPhrase |
| Scraper.Lookup | JobScraper.ts:1161 | defined as the registry entry under the lower-cased name; characterised by RegistryFindsAnySpelling and LookupIgnoresCase |
| Scraper.Retry | JobScraper.ts:313-327 | defined by RetryFrom from attempt 0; characterised by RetryFirstSuccess, RetryExhausted, RetrySucceedsIff and BackoffTotal |
| Scraper.ScrapeSites | JobScraper.ts:1152-1183 | defined as the sites' runs chained in order; characterised by ScrapeAppend, ScrapeSkipsUnknown, ScrapeIsolatesFailure and ScrapeWaitCount |
| Scraper.Stats | JobScraper.ts:1213-1233 | defined by the job count and three tallies; characterised by TallyCounts, StatsPermutation and StatsSum |
| Scraper.StandardizeDates | JobScraper.ts:1197-1205 | defined as the rewrite of every `postedDate` against the scrape date; characterised by RewriteDatesJobs and StandardizeDatesTotal |
| JobStore.CleanJob | db.ts:7-27 | defined column by column; characterised by CleanJobIsClean, CleanOptional and SaveRowsFromJobs |
| JobStore.SaveBatch | db.ts:31-42 | defined as the guarded upserts in order, stopping at the first that throws; characterised by SaveBatchOverrides, SaveLastWriteWins, SaveKeepsOtherRows and SaveSkipsInvalid |
| Text.Trim | JobScraper.ts:1259 | the result has no white space at either end, and it is empty exactly when the text is all white space |
| Text.TrimInfix | db.ts:16-26 | trimming cuts only white space: the result is an infix of the text with only white space before and after it |
| Text.TrimIdempotent | db.ts:16-26 | trimming a trimmed string changes nothing |
| Text.ToLowerIdempotent | JobScraper.ts:1161 | lower-cased text is lower case, lower case is its own lower case, so lower-casing is idempotent |
| Text.LowerKeepsSpaces | JobScraper.ts:1259 | lower-casing neither creates nor removes white space, so the blank test before or after it agrees |
| Text.DecimalRoundTrip | JobScraper.ts:1388 | reading back the decimal text of a number gives the number (the template literal and `parseInt` agree) |
| DatePatterns.DayCode | JobScraper.ts:1343-1344 | a match of `^(\d+)d$` captures a non-empty digit run, and the text is exactly that run followed by `d` |
| DateNormalizer.NumberDayCode | JobScraper.ts:1343-1344 | digits d followed by text r that does not start with a digit match `^(\d+)d$` iff r is `d`, capturing d |
| DateNormalizer.NumberDaysAgo | JobScraper.ts:1347-1348 | digits d followed by r match `^(\d+)\s+days?\s+ago$` iff r is exactly `\s+days?\s+ago`, capturing d |
| DateNormalizer.NumberHedged | JobScraper.ts:1351-1354 | digits d followed by r match the hedged month or year pattern iff r is exactly `\s+<word>s?`, capturing d |
| DateNormalizer.NumberPlus | JobScraper.ts:1367-1368 | digits d followed by text r that does not start with a digit match `^(\d+)\+\s+days?\s+ago$` iff r is `+` and then exactly `\s+days?\s+ago`, capturing d |
| DateNormalizer.NumberPlusMiss | JobScraper.ts:1367-1368 | digits followed by anything but `+` do not match `^(\d+)\+\s+days?\s+ago$` |
| DateNormalizer.NumberMissing | JobScraper.ts:1343-1368 | empty text, text not starting with a digit and a bare number match none of the three digit-led patterns |
| DatePatterns.PostedAgoUnit | JobScraper.ts:1363 | the unit word that `posted N <unit> ago` captures is one of the ten the pattern lists |
| DateNormalizer.MoveBack | JobScraper.ts:1276-1286 | a date copied from an invalid reference stays invalid (RangeError), and every rendered result is a valid time value |
| DateNormalizer.MoveBackUnits | JobScraper.ts:1278-1284 | a week back is 7 days back, an hour is 60 minutes, a minute is 60 seconds, and moving back by zero keeps the instant |
| DateNormalizer.ApplyRule | JobScraper.ts:1248-1324 | blank, `new`/`today` and unrecognised text give the fallback instant, and every result is a valid time value |
| DateNormalizer.StandardizeFallsBack | JobScraper.ts:1248-1256 | missing or white-space text and text matching no rule give the fallback; text `Date.parse` accepts gives its instant, since that rule comes first |
| DateNormalizer.StandardizeKeywords | JobScraper.ts:1262-1269 | `new`/`today` (any case, padded) give the reference; `yesterday` gives the reference one day back |
| DateNormalizer.KeywordRules | JobScraper.ts:1262-1265 | the keyword rules classify `new`, `today` and `yesterday` |
| DateNormalizer.StandardizeUnitsAgo | JobScraper.ts:1272-1287 | `N <unit>[s] ago` moves the reference back N of that unit, by that unit's setter |
| DateNormalizer.UnitsAgoRule | JobScraper.ts:1272-1275 | `N <unit>[s] ago` is caught by the ago rule, with N and the unit captured |
| DateNormalizer.StandardizeShorthand | JobScraper.ts:1290-1303 | `Nd`, `Nm` and `Ny` move the reference back N days, months or years |
| DateNormalizer.ShorthandRule | JobScraper.ts:1290-1301 | `Nd`/`Nm`/`Ny` are caught by the shorthand rule with the unit of the letter |
| DateNormalizer.StandardizeHedged | JobScraper.ts:1290-1321 | `[about, over or almost] N <unit>[s]` moves back N days, months or years for day, month and year, N months for minute, and N weeks, hours or seconds for those units |
| DateNormalizer.HedgedRule | JobScraper.ts:1290-1321 | such a phrase is caught by the shorthand rule unless its unit is week, hour or second, and only then by the hedged rule |
| DateNormalizer.ApproximateOnlyWeeksHoursSeconds | JobScraper.ts:1306-1321 | whatever the input, the hedged rule only ever answers with week, hour or second |
| DateNormalizer.RelativeBuckets | JobScraper.ts:1382-1393 | with d the floored day difference: d ≤ 0 iff `today`, d = 1 iff `yesterday`, 2 ≤ d < 30 iff `d days ago`, 30 ≤ d < 360 iff a months phrase with d/30 in 1..11, d ≥ 360 iff a years phrase with d/360 ≥ 1 |
| DateNormalizer.RelativeFromDatesIsPhrase | JobScraper.ts:1382-1393 | every answer is `today`, `yesterday` or digits followed by a unit and `ago` |
| DateNormalizer.RelativeBlank | JobScraper.ts:1332 | missing or white-space text is null, and the blank test on the raw text agrees with the one on the trimmed, lower-cased text |
| DateNormalizer.RelativeDayCode | JobScraper.ts:1343-1344 | `Nd` gives `N days ago` with the digits kept verbatim |
| DateNormalizer.RelativeDaysAgo | JobScraper.ts:1347-1348 | `N day[s] ago` gives `N days ago` |
| DateNormalizer.RelativeHedged | JobScraper.ts:1351-1354 | `[about, over or almost] N month[s]` / `year[s]` give `N months ago` / `N years ago` |
| DateNormalizer.RelativeKeywords | JobScraper.ts:1357-1360 | `new` and `today` give `today`, `yesterday` gives `yesterday` |
| DateNormalizer.RelativePosted | JobScraper.ts:1363-1364 | `posted N <unit> ago` gives `N <unit> ago` with the unit word as written |
| DateNormalizer.RelativeDaysPlus | JobScraper.ts:1367-1368 | `N+ day[s] ago` gives `N days ago` |
| DateNormalizer.RelativeLeftToParse | JobScraper.ts:1343-1374 | `N <unit> ago` for hour, week, month and year units matches no explicit rule and is answered by `Date.parse` |
| DateNormalizer.RelativeIsPhrase | JobScraper.ts:1331-1377 | against a valid reference every non-null answer is a relative phrase; against an Invalid Date it is a relative phrase or `NaN years ago` |
| DateNormalizer.RelativeFrom | JobScraper.ts:1382-1393 | an Invalid Date reference gives `NaN years ago`, a valid one a relative phrase |
| DateNormalizer.RelativeIsoRule | JobScraper.ts:1336-1340 | text in the ISO shape is answered by `new Date(postedDate)` alone, and is null when that date is invalid |
| DateNormalizer.RelativeUnmatched | JobScraper.ts:1370-1376 | text that no rule matches and `Date.parse` rejects gives null |
| DateNormalizer.CanonicalKeywords | JobScraper.ts:1357-1360 | `today` and `yesterday` are fixed points |
| DateNormalizer.CanonicalDays | JobScraper.ts:1347-1348 | `N days ago` is a fixed point |
| DateNormalizer.CanonicalMonthsYears | JobScraper.ts:1351-1376 | `N months ago` and `N years ago` are left to `Date.parse` |
| DateNormalizer.RecentPhraseFixed | JobScraper.ts:1382-1388 | a phrase for under 30 days, fed back in, comes out unchanged against any reference |
| Scraper.RegistryLower | JobScraper.ts:75-210 | every key `initializeScrapers` registers is lower case |
| Scraper.RegistryFindsAnySpelling | JobScraper.ts:1161 | any spelling of a registered name, in any mix of case, finds that name's adapter |
| Scraper.LookupIgnoresCase | JobScraper.ts:1161 | names that lower-case alike find the same adapter |
| Scraper.RetryFrom | JobScraper.ts:313-327 | at most `retries` attempts; every attempt before the last threw and was followed by a 2000·(i+1) ms wait; the result is the last attempt's; only the last attempt can end in a throw; with no attempts left it throws `All retry attempts failed` |
| Scraper.BackoffTotal | JobScraper.ts:322 | success on attempt k+1 has waited 1000·k·(k+1) ms in all |
| Scraper.RetryFirstSuccess | JobScraper.ts:316-318 | the first success, at attempt k, is returned after k+1 calls and the k backoffs |
| Scraper.RetryExhausted | JobScraper.ts:319-321 | when every attempt throws, the last error is rethrown after `retries` calls and `retries`−1 backoffs |
| Scraper.RetrySucceedsIff | JobScraper.ts:313-327 | the loop succeeds iff one of the first `retries` calls returns; with `retries` ≤ 0 it throws without calling |
| Scraper.ThenAssoc | JobScraper.ts:1158-1183 | chaining site runs is associative |
| Scraper.ScrapeAppend | JobScraper.ts:1158-1182 | scraping `a + b` is scraping `a`, then `b`: jobs concatenated in site order |
| Scraper.ScrapeSkipsUnknown | JobScraper.ts:1161-1165 | an unknown name contributes no jobs, no calls and no delay |
| Scraper.ScrapeIsolatesFailure | JobScraper.ts:1167-1179 | a site whose retries are exhausted contributes no jobs, keeps its backoffs and pause, and the sites after it still run |
| Scraper.ScrapeWaitCount | JobScraper.ts:1158-1180 | one wait per adapter call and at least one call per known site; with no retries, exactly one 2000 ms pause per known site |
| Scraper.SequenceCalls | JobScraper.ts:1158-1180 | when each known site makes a call, the run makes at least as many calls as there are known names |
| Scraper.KeysAppend | JobScraper.ts:1220-1230 | the keys counted for `a + b` are those of `a`, then of `b` |
| Scraper.TallyCounts | JobScraper.ts:1220-1230 | each count map gives every key the number of jobs carrying it |
| Scraper.StatsPermutation | JobScraper.ts:1213-1233 | the statistics do not depend on the order of the jobs |
| Scraper.StatsSum | JobScraper.ts:1214-1230 | `total` is the number of jobs, and each count map sums to `total` |
| Scraper.RewriteDates | JobScraper.ts:1197-1205 | on success one job per input; on failure the first job whose date cannot be rendered, after only renderable ones |
| Scraper.RewriteDatesJobs | JobScraper.ts:1197-1205 | every rewritten job equals its input except `postedDate`, which is the rendered date or null |
| Scraper.StandardizeDatesTotal | JobScraper.ts:1196-1205 | the rewrite succeeds iff every date renders; then every job has a date, the scrape date when its own was blank or unrecognised |
| Scraper.JobBoardScraper.constructor | JobScraper.ts:55-67 | `maxRetries` defaults to 3, and the registry holds the seventeen adapters of `initializeScrapers` |
| Scraper.JobBoardScraper.Delay | JobScraper.ts:309-311 | a delay is recorded and makes no adapter call |
| Scraper.JobBoardScraper.RetryOperation | JobScraper.ts:313-327 | result, calls and waits are those of `Retry` |
| Scraper.JobBoardScraper.ScrapeJobs | JobScraper.ts:1152-1183 | result, calls and waits are those of `ScrapeSites` |
| Scraper.JobBoardScraper.GetJobStats | JobScraper.ts:1213-1233 | the result is `Stats(jobs)` |
| JobStore.CleanOptional | db.ts:20-26 | missing or empty gives null, anything else is trimmed, so white space alone gives `""` |
| JobStore.SaveDatesFromJobs | db.ts:9-40 | a date in a row the batch adds or changes is the parsed non-empty date text of a valid job of the batch keyed by that url |
| JobStore.CleanJobIsClean | db.ts:15-27 | no text column of a cleaned row can be trimmed further |
| JobStore.SaveRowsFromJobs | db.ts:24-40 | every row a batch adds or changes sits under the trimmed url of a valid job of the batch, and is that job's cleaned row |
| JobStore.Writes | db.ts:36-40 | every row a batch writes sits under its own url |
| JobStore.FirstFailure | db.ts:32-41 | a failing upsert is a refused, cleaned row of a valid job of the batch |
| JobStore.SaveBatchOverrides | db.ts:31-42 | the table after a batch is the old table overridden by the batch's writes |
| JobStore.SaveIdempotent | db.ts:36-40 | saving a batch twice gives the same table as saving it once |
| JobStore.WritesFrom | db.ts:34-40 | every written url is the trimmed url of a valid job, and holds that job's row |
| JobStore.SaveKeepsOtherRows | db.ts:31-42 | rows under urls of no valid job of the batch are unchanged |
| JobStore.SaveStoresCleanRows | db.ts:35-40 | a table of clean rows stays clean |
| JobStore.SaveLastWriteWins | db.ts:35-40 | a url holds the row of the last valid job of the batch with that url |
| JobStore.SaveSkipsInvalid | db.ts:34 | a job with an empty title, company or url has no effect |
| JobStore.SaveBlankTitle | db.ts:34-35 | a title of white space alone passes the guard, and the row is stored with the empty title |
| JobStore.SaveStopsAtFailure | db.ts:32-41 | a throwing upsert ends the batch; later jobs are never processed |
| JobStore.SaveKeepsKeys | db.ts:36-37 | one row per key: a table whose rows sit under their own url stays so |
| JobStore.JobTable.Upsert | db.ts:36-40 | the row is stored under its url, or the table is unchanged when the upsert throws |
| JobStore.JobTable.SaveJobsToDb | db.ts:31-42 | the new table and the failing row are those of `SaveBatch` |

## Left out

- Browser automation, HTTP, the per-site `scrape*` adapters, `createPage`, `debugPage`, `initialize`, `close` and `scrapeGeneric` are not modelled. An adapter's behaviour is the `World` parameter, and the registry records only each adapter's display name.
- The engine's `Date` primitives are the uninterpreted `Clock`: `Date.parse`, `new Date(text)`, the local-time `setDate`/`setMonth`/`setFullYear`, and `toISOString`'s text. So DST, month-end clamping and parsing leniency are not modelled. Hours, minutes and seconds are exact millisecond subtraction.
- `toISOString`'s range (±8.64e15 ms) is modelled; its exact output text is not.
- `Text.ToLower` lower-cases only the ASCII letters, not the full Unicode case mapping of `toLowerCase`.
- `parseInt` of a long digit run is read as an exact integer, with no floating-point rounding.
- DateNormalizer.RelativeBuckets: the day count is exact integer division. The floating-point rounding that can add a day is not modelled. It can happen for instants more than 2^53 ms apart (in the subtraction) or 2^27 days apart (in the division).
- Scraper.StatsSum, Scraper.TallyCounts, Scraper.StatsPermutation and Scraper.JobBoardScraper.GetJobStats: the count maps are modelled as maps, not JavaScript objects. A job whose source, company or location is an inherited property name such as `constructor` is counted as any other key.
- A non-integer `retries` is not modelled; the count is an `int`.
- The default arguments (`location = ''`, `pages = 3`, `retries = config.maxRetries`, `fallbackDate = new Date()` and `referenceDate = new Date()`) are explicit arguments.
- The configuration beyond `maxRetries`, `ensureOutputDir`, `scrapeCustomUrl` and `getAvailableScrapers` are not modelled.
- `delay` sleeps for nothing here. The requested waits are kept in a ghost log.
- The adapters are indexed by the scraper's count of calls, not by wall time.
- Console logging is not modelled.
- `async`/`await` is modelled as strictly sequential execution.
- `saveJobs`: the file name, the timestamp, `JSON.stringify` and `writeFileSync` are not modelled. Only the `postedDate` rewrite is, and `new Date()` (the scrape date) is a parameter.
- The `id` and `createdAt` columns are not modelled.
- The Prisma client is not modelled; an upsert either stores the row under its url or throws.
- JobStore.SaveIdempotent: whether an upsert throws is a fixed function of the row, `rejects`. An upsert that fails transiently, or because of what the table holds, is not modelled, so two runs are compared under the same failures.
- JobStore.FirstFailure: the failing row is the first the fixed `rejects` refuses; a failure that depends on time or table state is not modelled.
- JobStore.SaveStopsAtFailure: stated for failures fixed by the row alone, as above.
- `importJobsFromJson` (file read and `JSON.parse`) and `main.ts` (CLI, scheduling, reporting) are not part of this model.
