/** The orchestration half of JobScraper.ts's `JobBoardScraper`: the registry
    of site adapters built by `initializeScrapers`, `retryOperation`,
    `scrapeJobs`, `getJobStats` and the date rewrite inside `saveJobs`.

    An adapter's network work is not modelled: what its `scrapeJobs` does on
    a call is read off a `World`, indexed by the adapter's registry key, the
    request, and how many adapter calls this scraper has made before. Every
    `delay(ms)` is recorded in a ghost log of waits instead of sleeping. */
module Scraper {
  import opened Wrappers
  import opened Text
  import opened JobTypes
  import opened DateNormalizer

  // ---------------------------------------------------------------------
  // The registry filled by initializeScrapers
  // ---------------------------------------------------------------------

  /** A registered adapter, as far as orchestration sees it: its display name. */
  datatype SiteScraper = SiteScraper(name: string)

  /** The `scrapers` map after `initializeScrapers`, by lower-case key. */
  const Registry: map<string, SiteScraper> := map[
    "weworkremotely" := SiteScraper("We Work Remotely"),
    "remoteok" := SiteScraper("RemoteOK"),
    "linkedin" := SiteScraper("LinkedIn"),
    "generic" := SiteScraper("Generic"),
    "remotive" := SiteScraper("Remotive"),
    "jobspresso" := SiteScraper("Jobspresso"),
    "workingnomads" := SiteScraper("Working Nomads"),
    "skipthedrive" := SiteScraper("SkipTheDrive"),
    "hubstafftalent" := SiteScraper("Hubstaff Talent"),
    "powertofly" := SiteScraper("PowerToFly"),
    "angellist" := SiteScraper("AngelList"),
    "techjobsforgood" := SiteScraper("Tech Jobs for Good"),
    "ycombinator" := SiteScraper("Y Combinator Jobs"),
    "nodesk" := SiteScraper("NoDesk"),
    "outsourcely" := SiteScraper("Outsourcely"),
    "workana" := SiteScraper("Workana"),
    "remotehub" := SiteScraper("RemoteHub")]

  /** `scrapers.get(site.toLowerCase())`. */
  function Lookup(registry: map<string, SiteScraper>, site: string): (r: Option<SiteScraper>)
    ensures r.Some? <==> ToLower(site) in registry
    ensures r.Some? ==> r.value == registry[ToLower(site)]
  {
    if ToLower(site) in registry then Some(registry[ToLower(site)]) else None
  }

  /** The lookup ignores case: two names that lower-case alike find the
      same adapter, and a name finds what its lower case finds. */
  lemma LookupIgnoresCase(registry: map<string, SiteScraper>, site: string, other: string)
    ensures ToLower(site) == ToLower(other) ==> Lookup(registry, site) == Lookup(registry, other)
    ensures Lookup(registry, ToLower(site)) == Lookup(registry, site)
  {
    ToLowerIdempotent(site);
  }

  /** Every character of `s` is a lower-case ASCII letter. */
  predicate LowerLetters(s: string) {
    forall k :: 0 <= k < |s| ==> 'a' <= s[k] <= 'z'
  }

  // The registry's keys, four or five at a time.
  lemma KeysLower0()
    ensures LowerLetters("weworkremotely") && LowerLetters("remoteok") && LowerLetters("linkedin") && LowerLetters("generic")
  {
  }

  lemma KeysLower1()
    ensures LowerLetters("remotive") && LowerLetters("jobspresso") && LowerLetters("workingnomads") && LowerLetters("skipthedrive")
  {
  }

  lemma KeysLower2()
    ensures LowerLetters("hubstafftalent") && LowerLetters("powertofly") && LowerLetters("angellist") && LowerLetters("techjobsforgood")
  {
  }

  lemma KeysLower3()
    ensures LowerLetters("ycombinator") && LowerLetters("nodesk") && LowerLetters("outsourcely") && LowerLetters("workana") && LowerLetters("remotehub")
  {
  }

  /** Every key initializeScrapers registers is already lower case, so the
      lower-cased name `scrapeJobs` looks up can reach each of them. */
  lemma RegistryLower()
    ensures forall k :: k in Registry ==> IsLower(k)
  {
    KeysLower0(); KeysLower1(); KeysLower2(); KeysLower3();
    forall k | k in Registry ensures IsLower(k) {
    }
  }

  /** Any spelling of a registered site name, in any mix of case, finds
      that site's adapter. */
  lemma RegistryFindsAnySpelling(site: string, key: string)
    requires key in Registry && ToLower(site) == ToLower(key)
    ensures Lookup(Registry, site) == Some(Registry[key])
  {
    RegistryLower();
    ToLowerIdempotent(key);
  }

  // ---------------------------------------------------------------------
  // Adapter calls
  // ---------------------------------------------------------------------

  /** What one call of an operation does: return a value or throw. */
  datatype Attempt = Returned(jobs: seq<Job>) | Threw(error: string)

  /** The arguments `scrapeJobs` passes on to an adapter. */
  datatype Request = Request(query: string, location: string, pages: int)

  /** The outcome of the adapter under `key`, asked `request`, when it is
      the scraper's `n`-th adapter call. */
  type World = (string, Request, nat) -> Attempt

  /** The operation a retry loop repeats, `() => scraper.scrapeJobs(query,
      location, pages)` for the adapter under `key`, when the loop's first
      call is the scraper's `start`-th adapter call. */
  datatype Operation = Operation(world: World, key: string, request: Request, start: nat)

  /** What the operation's `i`-th invocation (0-based) does. */
  function Invoke(op: Operation, i: nat): Attempt {
    op.world(op.key, op.request, op.start + i)
  }

  /** The jobs a finished call contributes: its result, or none if it threw. */
  function Harvest(a: Attempt): (jobs: seq<Job>)
    ensures a.Threw? ==> jobs == []
  {
    if a.Returned? then a.jobs else []
  }

  // ---------------------------------------------------------------------
  // retryOperation
  // ---------------------------------------------------------------------

  lemma Assoc<T>(a: seq<T>, b: seq<T>, c: seq<T>)
    ensures (a + b) + c == a + (b + c)
  {
  }

  const AllAttemptsFailed: string := "All retry attempts failed"

  /** The delay after a failed attempt `i` (0-based) that is not the last. */
  function Backoff(i: nat): int {
    2000 * (i + 1)
  }

  /** A retry loop's outcome: what it returns or throws, how many times it
      invoked the operation, and the waits it requested in order. */
  datatype RetryRun = RetryRun(result: Attempt, attempts: nat, waits: seq<int>)

  /** `retryOperation(op, retries)` from its attempt `i` on. */
  function RetryFrom(op: Operation, retries: int, i: nat): (r: RetryRun)
    decreases retries - i
    ensures i < retries ==> i < r.attempts <= retries && |r.waits| == r.attempts - 1 - i
    ensures i < retries ==> r.result == Invoke(op, r.attempts - 1)
    ensures i < retries && r.attempts < retries ==> r.result.Returned?
    ensures i >= retries ==> r == RetryRun(Threw(AllAttemptsFailed), i, [])
    ensures forall k :: i <= k < r.attempts - 1 ==> Invoke(op, k).Threw? && r.waits[k - i] == Backoff(k)
  {
    if i >= retries then RetryRun(Threw(AllAttemptsFailed), i, [])
    else if Invoke(op, i).Returned? || i == retries - 1 then RetryRun(Invoke(op, i), i + 1, [])
    else
      var rest := RetryFrom(op, retries, i + 1);
      RetryRun(rest.result, rest.attempts, [Backoff(i)] + rest.waits)
  }

  function Retry(op: Operation, retries: int): RetryRun {
    RetryFrom(op, retries, 0)
  }

  /** The waits before attempt `k`: 2000, 4000, ..., 2000·k. */
  function Backoffs(k: nat): (ws: seq<int>)
    ensures |ws| == k && forall j :: 0 <= j < k ==> ws[j] == Backoff(j)
  {
    seq(k, j requires 0 <= j < k => Backoff(j))
  }

  function Sum(ws: seq<int>): int {
    if ws == [] then 0 else Sum(ws[..|ws| - 1]) + ws[|ws| - 1]
  }

  /** Waiting 2000·(i+1) ms after each of the first `k` failures adds up to
      1000·k·(k+1) ms; success on the third attempt has waited 6000 ms. */
  lemma {:induction false} BackoffTotal(k: nat)
    ensures Sum(Backoffs(k)) == 1000 * k * (k + 1)
  {
    if k > 0 {
      assert Backoffs(k)[..k - 1] == Backoffs(k - 1);
      BackoffTotal(k - 1);
    }
  }

  /** The first success is returned: if attempts before `k` throw and attempt
      `k` returns, `k + 1` calls are made after `k` backoffs. */
  lemma RetryFirstSuccess(op: Operation, retries: int, k: nat)
    requires k < retries && Invoke(op, k).Returned?
    requires forall j :: 0 <= j < k ==> Invoke(op, j).Threw?
    ensures Retry(op, retries) == RetryRun(Invoke(op, k), k + 1, Backoffs(k))
  {
    var r := Retry(op, retries);
    assert r.attempts - 1 >= k by {
      if r.attempts - 1 < k {
        assert false;
      }
    }
  }

  /** When every allowed attempt throws, the last error is rethrown after
      `retries` calls and `retries - 1` backoffs. */
  lemma RetryExhausted(op: Operation, retries: int)
    requires retries >= 1
    requires forall j :: 0 <= j < retries ==> Invoke(op, j).Threw?
    ensures Retry(op, retries) == RetryRun(Invoke(op, retries - 1), retries, Backoffs(retries - 1))
  {
    var r := Retry(op, retries);
    assert r.attempts == retries by {
      if r.attempts < retries {
        assert false;
      }
    }
  }

  /** The loop succeeds exactly when one of its `retries` attempts returns;
      with `retries <= 0` it throws without invoking the operation. */
  lemma RetrySucceedsIff(op: Operation, retries: int)
    ensures Retry(op, retries).result.Returned? <==> exists k :: 0 <= k < retries && Invoke(op, k).Returned?
    ensures retries <= 0 ==> Retry(op, retries) == RetryRun(Threw(AllAttemptsFailed), 0, [])
  {
    var r := Retry(op, retries);
    if r.result.Threw? && retries >= 1 {
      assert forall k :: 0 <= k < retries ==> Invoke(op, k).Threw? by {
        forall k | 0 <= k < retries
          ensures Invoke(op, k).Threw?
        {
          if k < r.attempts - 1 {
          } else {
            assert k == r.attempts - 1;
          }
        }
      }
    }
  }

  // ---------------------------------------------------------------------
  // scrapeJobs
  // ---------------------------------------------------------------------

  /** What the loop over sites has done: the jobs collected in order, the
      adapter calls made and the waits requested. */
  datatype ScrapeRun = ScrapeRun(jobs: seq<Job>, attempts: nat, waits: seq<int>)

  /** One run followed by another. */
  function Then(first: ScrapeRun, second: ScrapeRun): ScrapeRun {
    ScrapeRun(first.jobs + second.jobs, first.attempts + second.attempts, first.waits + second.waits)
  }

  lemma ThenAssoc(x: ScrapeRun, y: ScrapeRun, z: ScrapeRun)
    ensures Then(Then(x, y), z) == Then(x, Then(y, z))
  {
    Assoc(x.jobs, y.jobs, z.jobs);
    Assoc(x.waits, y.waits, z.waits);
  }

  const SitePause: int := 2000

  /** One entry of the site list, its adapter calls numbered from `start`:
      an unknown name does nothing; a known one runs the retry loop, keeps
      what it returned, and pauses. */
  function SiteRun(registry: map<string, SiteScraper>, world: World, retries: int,
                   site: string, request: Request, start: nat): ScrapeRun
  {
    if Lookup(registry, site).None? then ScrapeRun([], 0, [])
    else
      var run := Retry(Operation(world, ToLower(site), request, start), retries);
      ScrapeRun(Harvest(run.result), run.attempts, run.waits + [SitePause])
  }

  /** What one entry of a site list does, its adapter calls numbered from
      the given start. */
  type Step = (string, nat) -> ScrapeRun

  /** Running `step` over the sites in order, each step's adapter calls
      numbered on from the previous ones'. */
  function Sequence(step: Step, sites: seq<string>, start: nat): ScrapeRun
    decreases |sites|
  {
    if sites == [] then ScrapeRun([], 0, [])
    else
      var prior := Sequence(step, sites[..|sites| - 1], start);
      Then(prior, step(sites[|sites| - 1], start + prior.attempts))
  }

  lemma ThenEmpty(x: ScrapeRun)
    ensures Then(x, ScrapeRun([], 0, [])) == x
  {
    assert x.jobs + [] == x.jobs && x.waits + [] == x.waits;
  }

  /** Running over `a + b` is running over `a`, then over `b` with the
      adapter calls numbered on from `mid`. */
  lemma {:induction false} SequenceAppend(step: Step, a: seq<string>, b: seq<string>, start: nat, mid: nat)
    requires mid == start + Sequence(step, a, start).attempts
    ensures Sequence(step, a + b, start) == Then(Sequence(step, a, start), Sequence(step, b, mid))
    decreases |b|
  {
    if b != [] {
      var b' := b[..|b| - 1];
      assert (a + b)[..|a + b| - 1] == a + b';
      assert (a + b)[|a + b| - 1] == b[|b| - 1];
      SequenceAppend(step, a, b', start, mid);
      var middle := Sequence(step, b', mid);
      ThenAssoc(Sequence(step, a, start), middle, step(b[|b| - 1], mid + middle.attempts));
    } else {
      assert a + b == a;
      ThenEmpty(Sequence(step, a, start));
    }
  }

  /** One entry in the middle of the list contributes exactly its own step. */
  lemma SequenceOne(step: Step, a: seq<string>, site: string, b: seq<string>, start: nat, mid: nat, after: nat)
    requires mid == start + Sequence(step, a, start).attempts
    requires after == mid + step(site, mid).attempts
    ensures Sequence(step, a + [site] + b, start)
            == Then(Then(Sequence(step, a, start), step(site, mid)), Sequence(step, b, after))
  {
    assert (a + [site])[..|a + [site]| - 1] == a;
    SequenceAppend(step, a + [site], b, start, after);
  }

  /** Running over one more entry adds that entry's step. */
  lemma SequenceSnoc(step: Step, sites: seq<string>, site: string, start: nat, mid: nat)
    requires mid == start + Sequence(step, sites, start).attempts
    ensures Sequence(step, sites + [site], start) == Then(Sequence(step, sites, start), step(site, mid))
  {
    assert (sites + [site])[..|sites|] == sites;
  }

  /** One more site of a list: the run over its first `i + 1` sites is the
      run over the first `i`, then the step for site `i`. */
  lemma SequencePrefix(step: Step, sites: seq<string>, i: nat, start: nat, mid: nat)
    requires i < |sites|
    requires mid == start + Sequence(step, sites[..i], start).attempts
    ensures Sequence(step, sites[..i + 1], start) == Then(Sequence(step, sites[..i], start), step(sites[i], mid))
  {
    assert sites[..i + 1] == sites[..i] + [sites[i]];
    SequenceSnoc(step, sites[..i], sites[i], start, mid);
  }

  /** When every step makes one wait per adapter call, so does the run. */
  lemma {:induction false} SequenceWaits(step: Step, sites: seq<string>, start: nat)
    requires forall site, n :: |step(site, n).waits| == step(site, n).attempts
    ensures |Sequence(step, sites, start).waits| == Sequence(step, sites, start).attempts
    decreases |sites|
  {
    if sites != [] {
      SequenceWaits(step, sites[..|sites| - 1], start);
    }
  }

  /** How many entries of `sites` name a registered adapter. */
  function KnownCount(registry: map<string, SiteScraper>, sites: seq<string>): nat
    decreases |sites|
  {
    if sites == [] then 0
    else KnownCount(registry, sites[..|sites| - 1]) + (if Lookup(registry, sites[|sites| - 1]).Some? then 1 else 0)
  }

  /** When every known entry makes an adapter call, the run makes at least
      one per known entry. */
  lemma {:induction false} SequenceCalls(step: Step, registry: map<string, SiteScraper>, sites: seq<string>, start: nat)
    requires forall site, n :: Lookup(registry, site).Some? ==> step(site, n).attempts >= 1
    ensures Sequence(step, sites, start).attempts >= KnownCount(registry, sites)
    decreases |sites|
  {
    if sites != [] {
      SequenceCalls(step, registry, sites[..|sites| - 1], start);
    }
  }

  /** When no entry calls an adapter and each known entry only pauses, the
      run is one pause per known entry. */
  lemma {:induction false} SequencePauses(step: Step, registry: map<string, SiteScraper>, sites: seq<string>, start: nat)
    requires forall site, n :: step(site, n) == ScrapeRun([], 0, if Lookup(registry, site).Some? then [SitePause] else [])
    ensures Sequence(step, sites, start) == ScrapeRun([], 0, seq(KnownCount(registry, sites), _ => SitePause))
    decreases |sites|
  {
    if sites != [] {
      SequencePauses(step, registry, sites[..|sites| - 1], start);
      var k := KnownCount(registry, sites[..|sites| - 1]);
      assert seq(k, _ => SitePause) + [SitePause] == seq(k + 1, _ => SitePause);
      assert seq(k, _ => SitePause) + [] == seq(k, _ => SitePause);
    }
  }

  function SiteStep(registry: map<string, SiteScraper>, world: World, retries: int, request: Request): (step: Step)
    ensures forall site, start :: step(site, start) == SiteRun(registry, world, retries, site, request, start)
  {
    (site: string, start: nat) => SiteRun(registry, world, retries, site, request, start)
  }

  /** `scrapeJobs(sites, ...)` with its adapter calls numbered from `start`. */
  function ScrapeSites(registry: map<string, SiteScraper>, world: World, retries: int,
                       sites: seq<string>, request: Request, start: nat): ScrapeRun
  {
    Sequence(SiteStep(registry, world, retries, request), sites, start)
  }

  /** The jobs come out in site-list order: scraping `a + b` is scraping `a`,
      then `b` with the adapter calls numbered on from `mid`. */
  lemma ScrapeAppend(registry: map<string, SiteScraper>, world: World, retries: int,
                     a: seq<string>, b: seq<string>, request: Request, start: nat, mid: nat)
    requires mid == start + ScrapeSites(registry, world, retries, a, request, start).attempts
    ensures ScrapeSites(registry, world, retries, a + b, request, start)
            == Then(ScrapeSites(registry, world, retries, a, request, start),
                    ScrapeSites(registry, world, retries, b, request, mid))
  {
    SequenceAppend(SiteStep(registry, world, retries, request), a, b, start, mid);
  }

  /** A name with no adapter contributes nothing, calls nothing and does not
      pause: the list scrapes as if it were absent. */
  lemma ScrapeSkipsUnknown(registry: map<string, SiteScraper>, world: World, retries: int,
                           a: seq<string>, site: string, b: seq<string>, request: Request, start: nat)
    requires Lookup(registry, site).None?
    ensures ScrapeSites(registry, world, retries, a + [site] + b, request, start)
            == ScrapeSites(registry, world, retries, a + b, request, start)
  {
    var step := SiteStep(registry, world, retries, request);
    var first := Sequence(step, a, start);
    var mid := start + first.attempts;
    SequenceOne(step, a, site, b, start, mid, mid);
    SequenceAppend(step, a, b, start, mid);
    ThenEmpty(first);
  }

  /** A known site whose retries run out contributes no jobs but does not stop
      the loop: the sites after it are still scraped, after the failed
      attempts' backoffs and one pause. */
  lemma ScrapeIsolatesFailure(registry: map<string, SiteScraper>, world: World, retries: int,
                              a: seq<string>, site: string, b: seq<string>, request: Request,
                              start: nat, mid: nat, after: nat)
    requires Lookup(registry, site).Some?
    requires mid == start + ScrapeSites(registry, world, retries, a, request, start).attempts
    requires Retry(Operation(world, ToLower(site), request, mid), retries).result.Threw?
    requires after == mid + Retry(Operation(world, ToLower(site), request, mid), retries).attempts
    ensures var first := ScrapeSites(registry, world, retries, a, request, start);
      var rest := ScrapeSites(registry, world, retries, b, request, after);
      var all := ScrapeSites(registry, world, retries, a + [site] + b, request, start);
      all.jobs == first.jobs + rest.jobs
      && all.waits == first.waits + Retry(Operation(world, ToLower(site), request, mid), retries).waits
                      + [SitePause] + rest.waits
  {
    var step := SiteStep(registry, world, retries, request);
    var run := Retry(Operation(world, ToLower(site), request, mid), retries);
    assert step(site, mid) == ScrapeRun([], run.attempts, run.waits + [SitePause]);
    SequenceOne(step, a, site, b, start, mid, after);
    var first := Sequence(step, a, start);
    ThenEmpty(first);
    Assoc(first.waits, run.waits, [SitePause]);
  }

  /** Every known site is called at least once and every adapter call is
      followed by exactly one wait, a backoff or the pause after its site;
      with `retries <= 0` no adapter is called and each known site still
      pauses once. */
  lemma ScrapeWaitCount(registry: map<string, SiteScraper>, world: World, retries: int,
                        sites: seq<string>, request: Request, start: nat)
    ensures var r := ScrapeSites(registry, world, retries, sites, request, start);
      retries >= 1 ==> |r.waits| == r.attempts >= KnownCount(registry, sites)
    ensures retries <= 0 ==> ScrapeSites(registry, world, retries, sites, request, start)
                             == ScrapeRun([], 0, seq(KnownCount(registry, sites), _ => SitePause))
  {
    var step := SiteStep(registry, world, retries, request);
    if retries >= 1 {
      SequenceWaits(step, sites, start);
      SequenceCalls(step, registry, sites, start);
    } else {
      SequencePauses(step, registry, sites, start);
    }
  }

  // ---------------------------------------------------------------------
  // getJobStats
  // ---------------------------------------------------------------------

  /** `JobStats`: the job count and three count records. */
  datatype JobStats = JobStats(total: nat, sources: map<string, nat>,
                               topCompanies: map<string, nat>, locations: map<string, nat>)

  /** The property a count record is keyed by. */
  datatype Field = Source | Company | Location

  function Key(job: Job, f: Field): string {
    match f
    case Source => job.source
    case Company => job.company
    case Location => job.location
  }

  /** `record[k] || 0`. */
  function Count(m: map<string, nat>, k: string): nat {
    if k in m then m[k] else 0
  }

  /** `record[k] = (record[k] || 0) + 1`. */
  function Bump(m: map<string, nat>, k: string): map<string, nat> {
    m[k := Count(m, k) + 1]
  }

  /** The keys the jobs carry for one field, in order. */
  function Keys(jobs: seq<Job>, f: Field): (ks: seq<string>)
    decreases |jobs|
  {
    if jobs == [] then [] else Keys(jobs[..|jobs| - 1], f) + [Key(jobs[|jobs| - 1], f)]
  }

  /** Keys distribute over concatenation. */
  lemma {:induction false} KeysAppend(a: seq<Job>, b: seq<Job>, f: Field)
    ensures Keys(a + b, f) == Keys(a, f) + Keys(b, f)
    decreases |b|
  {
    if b == [] {
      assert a + b == a;
    } else {
      var b' := b[..|b| - 1];
      assert (a + b)[..|a + b| - 1] == a + b';
      KeysAppend(a, b', f);
      Assoc(Keys(a, f), Keys(b', f), [Key(b[|b| - 1], f)]);
    }
  }

  /** The count record for one field after the jobs have been visited in
      order, one `Bump` per job. */
  function Tally(jobs: seq<Job>, f: Field): map<string, nat>
    decreases |jobs|
  {
    if jobs == [] then map[]
    else Bump(Tally(jobs[..|jobs| - 1], f), Key(jobs[|jobs| - 1], f))
  }

  function Stats(jobs: seq<Job>): JobStats {
    JobStats(|jobs|, Tally(jobs, Source), Tally(jobs, Company), Tally(jobs, Location))
  }

  /** The record a multiset of keys describes: each key that occurs, with
      how often it occurs. */
  function Counts(ks: multiset<string>): map<string, nat> {
    map k | k in ks :: ks[k]
  }

  /** Each key present in a count record counts its occurrences among the
      jobs, and no other key is present. */
  lemma {:induction false} TallyCounts(jobs: seq<Job>, f: Field)
    ensures Tally(jobs, f) == Counts(multiset(Keys(jobs, f)))
    decreases |jobs|
  {
    if jobs != [] {
      var prior := jobs[..|jobs| - 1];
      var k := Key(jobs[|jobs| - 1], f);
      TallyCounts(prior, f);
      assert Keys(jobs, f) == Keys(prior, f) + [k];
      assert multiset(Keys(jobs, f)) == multiset(Keys(prior, f)) + multiset{k};
      CountsAdd(multiset(Keys(prior, f)), k);
    }
  }

  /** Bumping a key of a described record describes one more occurrence. */
  lemma CountsAdd(m: multiset<string>, k: string)
    ensures Bump(Counts(m), k) == Counts(m + multiset{k})
  {
    var l, r := Bump(Counts(m), k), Counts(m + multiset{k});
    assert l.Keys == r.Keys;
    forall j | j in l
      ensures l[j] == r[j]
    {
      if j == k {
        assert Count(Counts(m), k) == m[k];
      }
    }
  }

  /** Taking the element at `i` out of a list takes one of it out of the
      list's multiset. */
  lemma RemoveAt<T>(b: seq<T>, i: nat)
    requires i < |b|
    ensures multiset(b[..i] + b[i + 1..]) == multiset(b) - multiset{b[i]}
  {
    assert b == b[..i] + [b[i]] + b[i + 1..];
  }

  /** Taking the job at `i` out of the list takes its key out of the keys. */
  lemma KeysRemove(b: seq<Job>, i: nat, f: Field)
    requires i < |b|
    ensures multiset(Keys(b, f)) == multiset(Keys(b[..i] + b[i + 1..], f)) + multiset{Key(b[i], f)}
  {
    var b1, b2 := b[..i], b[i + 1..];
    assert b == b1 + [b[i]] + b2;
    KeysAppend(b1 + [b[i]], b2, f);
    KeysAppend(b1, [b[i]], f);
    KeysAppend(b1, b2, f);
    assert Keys([b[i]], f) == [Key(b[i], f)];
  }

  /** Reordering the jobs does not change which keys occur how often. */
  lemma {:induction false} KeysPermutation(a: seq<Job>, b: seq<Job>, f: Field)
    requires multiset(a) == multiset(b)
    ensures multiset(Keys(a, f)) == multiset(Keys(b, f))
    decreases |a|
  {
    if a != [] {
      var n := |a| - 1;
      var x := a[n];
      assert x in multiset(b);
      var i :| 0 <= i < |b| && b[i] == x;
      RemoveAt(a, n);
      RemoveAt(b, i);
      KeysRemove(a, n, f);
      KeysRemove(b, i, f);
      assert a[..n] + a[n + 1..] == a[..n];
      KeysPermutation(a[..n], b[..i] + b[i + 1..], f);
    }
  }

  /** The statistics depend only on which jobs there are, not on their order. */
  lemma StatsPermutation(a: seq<Job>, b: seq<Job>)
    requires multiset(a) == multiset(b)
    ensures Stats(a) == Stats(b)
  {
    assert |a| == |multiset(a)| == |multiset(b)| == |b|;
    KeysPermutation(a, b, Source);
    KeysPermutation(a, b, Company);
    KeysPermutation(a, b, Location);
    TallyCounts(a, Source);
    TallyCounts(b, Source);
    TallyCounts(a, Company);
    TallyCounts(b, Company);
    TallyCounts(a, Location);
    TallyCounts(b, Location);
  }

  /** The total of a count record's values. */
  ghost function SumCounts(m: map<string, nat>): nat
    decreases |m|
  {
    if m == map[] then 0
    else
      var k :| k in m;
      m[k] + SumCounts(m - {k})
  }

  /** The total does not depend on which key is taken first. */
  lemma {:induction false} SumCountsRemove(m: map<string, nat>, k: string)
    requires k in m
    ensures SumCounts(m) == m[k] + SumCounts(m - {k})
    decreases |m|
  {
    var j :| j in m && SumCounts(m) == m[j] + SumCounts(m - {j});
    if j != k {
      SumCountsRemove(m - {j}, k);
      SumCountsRemove(m - {k}, j);
      assert m - {j} - {k} == m - {k} - {j};
    }
  }

  lemma SumCountsBump(m: map<string, nat>, k: string)
    ensures SumCounts(Bump(m, k)) == SumCounts(m) + 1
  {
    SumCountsRemove(Bump(m, k), k);
    assert Bump(m, k) - {k} == m - {k};
    if k in m {
      SumCountsRemove(m, k);
    } else {
      assert m - {k} == m;
    }
  }

  /** Each count record's values add up to the number of jobs, `total`. */
  lemma {:induction false} TallySum(jobs: seq<Job>, f: Field)
    ensures SumCounts(Tally(jobs, f)) == |jobs|
    decreases |jobs|
  {
    if jobs != [] {
      TallySum(jobs[..|jobs| - 1], f);
      SumCountsBump(Tally(jobs[..|jobs| - 1], f), Key(jobs[|jobs| - 1], f));
    }
  }

  lemma StatsSum(jobs: seq<Job>)
    ensures var s := Stats(jobs);
      s.total == |jobs| && SumCounts(s.sources) == s.total
      && SumCounts(s.topCompanies) == s.total && SumCounts(s.locations) == s.total
  {
    TallySum(jobs, Source);
    TallySum(jobs, Company);
    TallySum(jobs, Location);
  }

  // ---------------------------------------------------------------------
  // The postedDate rewrite in saveJobs
  // ---------------------------------------------------------------------

  /** `text || null` for a string. */
  function OrNull(text: string): Option<string> {
    if text == "" then None else Some(text)
  }

  /** `jobs.map(job => ({...job, postedDate: date(job.postedDate) || null}))`,
      where `date` yields an instant that `iso` renders or the `RangeError`
      that the rendering throws: every job keeps all its fields but
      `postedDate`. The map stops at the first job whose date throws; that
      job's index is the failure. */
  function RewriteDates(jobs: seq<Job>, date: Option<string> -> Stamp, iso: int -> string): (r: Result<seq<Job>, nat>)
    ensures r.Success? ==> |r.value| == |jobs|
    ensures r.Failure? ==>
              (r.error < |jobs| && date(jobs[r.error].postedDate).RangeError?
               && forall i :: 0 <= i < r.error ==> date(jobs[i].postedDate).Iso?)
    decreases |jobs|
  {
    if jobs == [] then Success([])
    else
      var stamp := date(jobs[0].postedDate);
      if stamp.RangeError? then Failure(0)
      else
        var rest := RewriteDates(jobs[1..], date, iso);
        if rest.Failure? then Failure(rest.error + 1)
        else Success([jobs[0].(postedDate := OrNull(iso(stamp.instant)))] + rest.value)
  }

  /** On success every job's date was rendered, and each job keeps all its
      fields but `postedDate`, which holds the rendering or null. */
  lemma {:induction false} RewriteDatesJobs(jobs: seq<Job>, date: Option<string> -> Stamp, iso: int -> string)
    ensures var r := RewriteDates(jobs, date, iso);
      r.Success? ==> forall i :: 0 <= i < |jobs| ==>
        (date(jobs[i].postedDate).Iso?
         && r.value[i].(postedDate := jobs[i].postedDate) == jobs[i]
         && r.value[i].postedDate == OrNull(iso(date(jobs[i].postedDate).instant)))
    decreases |jobs|
  {
    var r := RewriteDates(jobs, date, iso);
    if jobs != [] && r.Success? {
      RewriteDatesJobs(jobs[1..], date, iso);
      forall i | 0 < i < |jobs|
        ensures r.value[i] == RewriteDates(jobs[1..], date, iso).value[i - 1] && jobs[i] == jobs[1..][i - 1]
      {
      }
    }
  }

  /** `standardizePostedDate(_, scrapeDate)`. */
  function Standardizer(scrapeDate: int, clock: Clock): (date: Option<string> -> Stamp)
    ensures forall p :: date(p) == StandardizePostedDate(p, scrapeDate, clock)
  {
    p => StandardizePostedDate(p, scrapeDate, clock)
  }

  /** The date rewrite in `saveJobs`, against the scrape date. */
  function StandardizeDates(jobs: seq<Job>, scrapeDate: int, clock: Clock): Result<seq<Job>, nat> {
    RewriteDates(jobs, Standardizer(scrapeDate, clock), clock.iso)
  }

  /** The rewrite fails exactly when some job's instant cannot be rendered,
      and since `toISOString` never yields "", the `|| null` never fires:
      every rewritten job has a date, the scrape date when its own was
      missing or unrecognised. */
  lemma StandardizeDatesTotal(jobs: seq<Job>, scrapeDate: int, clock: Clock)
    requires forall t :: clock.iso(t) != ""
    ensures StandardizeDates(jobs, scrapeDate, clock).Success?
            <==> forall i :: 0 <= i < |jobs| ==> StandardizePostedDate(jobs[i].postedDate, scrapeDate, clock).Iso?
    ensures var r := StandardizeDates(jobs, scrapeDate, clock);
      r.Success? ==> forall i :: 0 <= i < |jobs| ==> r.value[i].postedDate.Some?
    ensures var r := StandardizeDates(jobs, scrapeDate, clock);
      r.Success? ==> forall i :: 0 <= i < |jobs| && StandardizeRule(jobs[i].postedDate, clock) in {Blank, Unrecognised} ==>
        r.value[i].postedDate == Some(clock.iso(scrapeDate))
  {
    var date := Standardizer(scrapeDate, clock);
    var r := RewriteDates(jobs, date, clock.iso);
    RewriteDatesJobs(jobs, date, clock.iso);
    if r.Success? {
      forall i | 0 <= i < |jobs| && StandardizeRule(jobs[i].postedDate, clock) in {Blank, Unrecognised}
        ensures r.value[i].postedDate == Some(clock.iso(scrapeDate))
      {
        assert date(jobs[i].postedDate) == ToIso(scrapeDate);
      }
    } else {
      assert date(jobs[r.error].postedDate).RangeError?;
    }
  }

  // ---------------------------------------------------------------------
  // The scraper object
  // ---------------------------------------------------------------------

  class JobBoardScraper {
    /** `config.maxRetries`. */
    const maxRetries: int
    /** The `scrapers` map. */
    const scrapers: map<string, SiteScraper>
    /** How the adapters behave. */
    const world: World
    /** How many adapter calls this scraper has made. */
    var calls: nat
    /** Every `delay(ms)` requested, in order. */
    ghost var waits: seq<int>

    /** `new JobBoardScraper(config)` with `maxRetries ?? 3`, then
        `initializeScrapers()`. */
    constructor(maxRetries: Option<int>, world: World)
      ensures this.maxRetries == maxRetries.GetOr(3) && scrapers == Registry && this.world == world
      ensures calls == 0 && waits == []
    {
      this.maxRetries := maxRetries.GetOr(3);
      scrapers := Registry;
      this.world := world;
      calls := 0;
      waits := [];
    }

    /** `delay(ms)`, recorded rather than slept. */
    method Delay(ms: int)
      modifies this
      ensures calls == old(calls) && waits == old(waits) + [ms]
    {
      waits := waits + [ms];
    }

    /** `scraper.scrapeJobs(query, location, pages)` for the adapter under `key`. */
    method CallAdapter(key: string, request: Request) returns (a: Attempt)
      modifies this
      ensures a == world(key, request, old(calls))
      ensures calls == old(calls) + 1 && waits == old(waits)
    {
      a := world(key, request, calls);
      calls := calls + 1;
    }

    /** `retryOperation(() => scraper.scrapeJobs(...), retries)`. */
    method RetryOperation(key: string, request: Request, retries: int) returns (a: Attempt)
      modifies this
      ensures var run := Retry(Operation(world, key, request, old(calls)), retries);
        a == run.result && calls == old(calls) + run.attempts && waits == old(waits) + run.waits
    {
      ghost var op := Operation(world, key, request, calls);
      var i: nat := 0;
      while i < retries
        invariant calls == old(calls) + i && waits == old(waits) + Backoffs(i)
        invariant i == 0 || i < retries
        invariant forall j :: 0 <= j < i ==> Invoke(op, j).Threw?
        decreases retries - i
      {
        a := CallAdapter(key, request);
        if a.Returned? {
          RetryFirstSuccess(op, retries, i);
          return;
        }
        if i == retries - 1 {
          RetryExhausted(op, retries);
          return;
        }
        assert Backoffs(i + 1) == Backoffs(i) + [Backoff(i)];
        Delay(Backoff(i));
        i := i + 1;
      }
      RetrySucceedsIff(op, retries);
      a := Threw(AllAttemptsFailed);
    }

    /** `scrapeJobs(sites, query, location, pages)`. */
    method ScrapeJobs(sites: seq<string>, query: string, location: string, pages: int) returns (allJobs: seq<Job>)
      modifies this
      ensures var run := ScrapeSites(scrapers, world, maxRetries, sites, Request(query, location, pages), old(calls));
        allJobs == run.jobs && calls == old(calls) + run.attempts && waits == old(waits) + run.waits
    {
      var request := Request(query, location, pages);
      ghost var step := SiteStep(scrapers, world, maxRetries, request);
      allJobs := [];
      for i := 0 to |sites|
        invariant var run := Sequence(step, sites[..i], old(calls));
          allJobs == run.jobs && calls == old(calls) + run.attempts && waits == old(waits) + run.waits
      {
        ghost var prior := Sequence(step, sites[..i], old(calls));
        ghost var mid := calls;
        SequencePrefix(step, sites, i, old(calls), mid);
        var scraper := Lookup(scrapers, sites[i]);
        if scraper.None? {
          ThenEmpty(prior);
          continue;
        }
        var result := RetryOperation(ToLower(sites[i]), request, maxRetries);
        ghost var run := Retry(Operation(world, ToLower(sites[i]), request, mid), maxRetries);
        assert step(sites[i], mid) == ScrapeRun(Harvest(run.result), run.attempts, run.waits + [SitePause]);
        if result.Returned? {
          allJobs := allJobs + result.jobs;
        }
        Delay(SitePause);
        Assoc(old(waits) + prior.waits, run.waits, [SitePause]);
        Assoc(old(waits), prior.waits, run.waits + [SitePause]);
      }
      assert sites[..|sites|] == sites;
    }

    /** `getJobStats(jobs)`. */
    method GetJobStats(jobs: seq<Job>) returns (stats: JobStats)
      ensures stats == Stats(jobs)
    {
      var sources, companies, locations := map[], map[], map[];
      for i := 0 to |jobs|
        invariant sources == Tally(jobs[..i], Source)
        invariant companies == Tally(jobs[..i], Company)
        invariant locations == Tally(jobs[..i], Location)
      {
        assert jobs[..i + 1][..i] == jobs[..i];
        sources := Bump(sources, jobs[i].source);
        companies := Bump(companies, jobs[i].company);
        locations := Bump(locations, jobs[i].location);
      }
      assert jobs[..|jobs|] == jobs;
      stats := JobStats(|jobs|, sources, companies, locations);
    }
  }
}
