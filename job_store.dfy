/** db.ts: `cleanJob`, which normalises a scraped `Job` into a table row, and
    `saveJobsToDb`, which upserts the valid jobs of a batch into the job
    table keyed by their trimmed url.

    The table is a map from url to row. What the database does with one
    upsert is not modelled beyond its effect: it either stores the row under
    its url or throws, and which rows it refuses is a parameter, `rejects`.
    `new Date(text)` is a parameter too, `parse`, giving the time value or
    `None` for an invalid date. */
module JobStore {
  import opened Wrappers
  import opened Text
  import opened JobTypes

  /** A row of the job table, without the `id` and `createdAt` columns the
      database fills in. `postedDate` is a time value in milliseconds. */
  datatype Row = Row(
    title: string,
    company: string,
    location: string,
    description: string,
    salary: Option<string>,
    postedDate: Option<int>,
    jobType: Option<string>,
    experienceLevel: Option<string>,
    url: string,
    source: string,
    logo: Option<string>)

  // ---------------------------------------------------------------------
  // cleanJob
  // ---------------------------------------------------------------------

  /** `x ? x.trim() : null`: missing and empty become null, anything else is
      trimmed, so white space alone becomes "" rather than null. */
  function CleanOptional(x: Option<string>): (r: Option<string>)
    ensures r.None? <==> x.None? || x.value == ""
    ensures r.Some? ==> r.value == Trim(x.value)
    ensures x.Some? && x.value != "" && AllSpaces(x.value) ==> r == Some("")
  {
    if x.None? || x.value == "" then None else Some(Trim(x.value))
  }

  /** The `postedDate` column: null unless the text is present, non-empty,
      and makes a valid `Date`. */
  function CleanDate(postedDate: Option<string>, parse: string -> Option<int>): (r: Option<int>)
    ensures r.Some? <==> postedDate.Some? && postedDate.value != "" && parse(postedDate.value).Some?
    ensures r.Some? ==> r == parse(postedDate.value)
  {
    if postedDate.None? || postedDate.value == "" then None else parse(postedDate.value)
  }

  /** `cleanJob(job)`. */
  function CleanJob(job: Job, parse: string -> Option<int>): Row {
    Row(
      Trim(job.title),
      Trim(job.company),
      Trim(job.location),
      Trim(job.description),
      CleanOptional(job.salary),
      CleanDate(job.postedDate, parse),
      CleanOptional(job.jobType),
      CleanOptional(job.experienceLevel),
      Trim(job.url),
      Trim(job.source),
      CleanOptional(job.logo))
  }

  /** Text that `trim()` leaves as it is. */
  predicate Trimmed(s: string) {
    Trim(s) == s
  }

  predicate TrimmedOptional(x: Option<string>) {
    x.Some? ==> Trimmed(x.value)
  }

  /** A row as `cleanJob` leaves it: trimming any of its text columns again
      changes nothing. */
  predicate Clean(row: Row) {
    Trimmed(row.title) && Trimmed(row.company) && Trimmed(row.location)
    && Trimmed(row.description) && Trimmed(row.url) && Trimmed(row.source)
    && TrimmedOptional(row.salary) && TrimmedOptional(row.jobType)
    && TrimmedOptional(row.experienceLevel) && TrimmedOptional(row.logo)
  }

  lemma CleanOptionalTrimmed(x: Option<string>)
    ensures TrimmedOptional(CleanOptional(x))
  {
    if CleanOptional(x).Some? {
      TrimIdempotent(x.value);
    }
  }

  /** Every row `cleanJob` makes is clean: no text column of it starts or
      ends with white space. */
  lemma CleanJobIsClean(job: Job, parse: string -> Option<int>)
    ensures Clean(CleanJob(job, parse))
  {
    TrimIdempotent(job.title);
    TrimIdempotent(job.company);
    TrimIdempotent(job.location);
    TrimIdempotent(job.description);
    TrimIdempotent(job.url);
    TrimIdempotent(job.source);
    CleanOptionalTrimmed(job.salary);
    CleanOptionalTrimmed(job.jobType);
    CleanOptionalTrimmed(job.experienceLevel);
    CleanOptionalTrimmed(job.logo);
  }

  // ---------------------------------------------------------------------
  // saveJobsToDb
  // ---------------------------------------------------------------------

  /** The guard `if (!job.title || !job.company || !job.url) continue;`: it
      tests the untrimmed text, so white space alone passes. */
  predicate Savable(job: Job) {
    job.title != "" && job.company != "" && job.url != ""
  }

  /** The table after a batch, and the row whose upsert threw, if any. */
  datatype Saved = Saved(rows: map<string, Row>, failed: Option<Row>)

  /** How a job becomes a row; the batch below is stated for any such
      function and used with `Cleaner`. */
  type Cleaning = Job -> Row

  /** `cleanJob` with the date parser fixed. */
  function Cleaner(parse: string -> Option<int>): (clean: Cleaning)
    ensures forall job :: clean(job) == CleanJob(job, parse)
    ensures forall job :: clean(job).url == Trim(job.url)
  {
    job => CleanJob(job, parse)
  }

  /** `saveJobsToDb(jobs)` against the table `rows`: skip what the guard
      rejects, upsert the cleaned row under its url, and stop at the first
      upsert that throws. */
  function SaveBatch(rows: map<string, Row>, jobs: seq<Job>, clean: Cleaning, rejects: Row -> bool): Saved
    decreases |jobs|
  {
    if jobs == [] then Saved(rows, None)
    else if !Savable(jobs[0]) then SaveBatch(rows, jobs[1..], clean, rejects)
    else
      var row := clean(jobs[0]);
      if rejects(row) then Saved(rows, Some(row))
      else SaveBatch(rows[row.url := row], jobs[1..], clean, rejects)
  }

  /** The upserts a batch makes before any of them throws, merged so that a
      later row for the same url replaces an earlier one. */
  function Writes(jobs: seq<Job>, clean: Cleaning, rejects: Row -> bool): (w: map<string, Row>)
    ensures forall u :: u in w ==> w[u].url == u
    decreases |jobs|
  {
    if jobs == [] then map[]
    else if !Savable(jobs[0]) then Writes(jobs[1..], clean, rejects)
    else if rejects(clean(jobs[0])) then map[]
    else map[clean(jobs[0]).url := clean(jobs[0])] + Writes(jobs[1..], clean, rejects)
  }

  /** The row whose upsert throws first, if any. */
  function FirstFailure(jobs: seq<Job>, clean: Cleaning, rejects: Row -> bool): (r: Option<Row>)
    ensures r.Some? ==> rejects(r.value)
    ensures r.Some? ==> exists i :: 0 <= i < |jobs| && Savable(jobs[i]) && r.value == clean(jobs[i])
    decreases |jobs|
  {
    if jobs == [] then None
    else if !Savable(jobs[0]) then FirstFailure(jobs[1..], clean, rejects)
    else if rejects(clean(jobs[0])) then Some(clean(jobs[0]))
    else
      var r := FirstFailure(jobs[1..], clean, rejects);
      if r.Some? then
        var i :| 0 <= i < |jobs[1..]| && Savable(jobs[1..][i]) && r.value == clean(jobs[1..][i]);
        assert jobs[1..][i] == jobs[i + 1];
        r
      else r
  }

  /** A batch overrides the table with its writes and nothing else: rows
      under other urls are left as they were, whatever the table held. */
  lemma {:induction false} SaveBatchOverrides(rows: map<string, Row>, jobs: seq<Job>,
                                              clean: Cleaning, rejects: Row -> bool)
    ensures SaveBatch(rows, jobs, clean, rejects)
            == Saved(rows + Writes(jobs, clean, rejects), FirstFailure(jobs, clean, rejects))
    decreases |jobs|
  {
    if jobs == [] {
      assert rows + map[] == rows;
    } else if Savable(jobs[0]) {
      var row := clean(jobs[0]);
      if !rejects(row) {
        SaveBatchOverrides(rows[row.url := row], jobs[1..], clean, rejects);
        var w := Writes(jobs[1..], clean, rejects);
        assert rows[row.url := row] + w == rows + (map[row.url := row] + w);
      } else {
        assert rows + map[] == rows;
      }
    } else {
      SaveBatchOverrides(rows, jobs[1..], clean, rejects);
    }
  }

  /** Saving a batch twice leaves the table as saving it once. */
  lemma SaveIdempotent(rows: map<string, Row>, jobs: seq<Job>, clean: Cleaning, rejects: Row -> bool)
    ensures var once := SaveBatch(rows, jobs, clean, rejects);
      SaveBatch(once.rows, jobs, clean, rejects) == once
  {
    var once := SaveBatch(rows, jobs, clean, rejects);
    var w := Writes(jobs, clean, rejects);
    SaveBatchOverrides(rows, jobs, clean, rejects);
    SaveBatchOverrides(once.rows, jobs, clean, rejects);
    assert (rows + w) + w == rows + w;
  }

  /** Every url a batch writes is the key of a valid job of the batch, and
      holds that job's row. */
  lemma {:induction false} WritesFrom(jobs: seq<Job>, clean: Cleaning, rejects: Row -> bool, u: string)
    requires u in Writes(jobs, clean, rejects)
    ensures exists i :: 0 <= i < |jobs| && Savable(jobs[i]) && clean(jobs[i]).url == u
                        && Writes(jobs, clean, rejects)[u] == clean(jobs[i])
    decreases |jobs|
  {
    if u !in Writes(jobs[1..], clean, rejects) {
      assert Savable(jobs[0]) && u == clean(jobs[0]).url;
    } else {
      WritesFrom(jobs[1..], clean, rejects, u);
      var i :| 0 <= i < |jobs[1..]| && Savable(jobs[1..][i]) && clean(jobs[1..][i]).url == u
               && Writes(jobs[1..], clean, rejects)[u] == clean(jobs[1..][i]);
      assert jobs[1..][i] == jobs[i + 1];
    }
  }

  /** Rows under a url that no valid job of the batch is keyed by are
      unchanged. */
  lemma SaveKeepsOtherRows(rows: map<string, Row>, jobs: seq<Job>, clean: Cleaning,
                           rejects: Row -> bool, u: string)
    requires forall i :: 0 <= i < |jobs| && Savable(jobs[i]) ==> clean(jobs[i]).url != u
    ensures var after := SaveBatch(rows, jobs, clean, rejects).rows;
      (u in after <==> u in rows) && (u in rows ==> after[u] == rows[u])
  {
    SaveBatchOverrides(rows, jobs, clean, rejects);
    if u in Writes(jobs, clean, rejects) {
      WritesFrom(jobs, clean, rejects, u);
    }
  }

  /** Every row a `cleanJob` batch stores is clean. */
  lemma SaveStoresCleanRows(rows: map<string, Row>, jobs: seq<Job>, parse: string -> Option<int>,
                            rejects: Row -> bool, u: string)
    requires forall v :: v in rows ==> Clean(rows[v])
    requires u in SaveBatch(rows, jobs, Cleaner(parse), rejects).rows
    ensures Clean(SaveBatch(rows, jobs, Cleaner(parse), rejects).rows[u])
  {
    var clean := Cleaner(parse);
    SaveBatchOverrides(rows, jobs, clean, rejects);
    if u in Writes(jobs, clean, rejects) {
      WritesFrom(jobs, clean, rejects, u);
      var i :| 0 <= i < |jobs| && Savable(jobs[i]) && clean(jobs[i]).url == u
               && Writes(jobs, clean, rejects)[u] == clean(jobs[i]);
      CleanJobIsClean(jobs[i], parse);
    }
  }

  /** Every row a `cleanJob` batch adds or changes is keyed by the trimmed
      url of a valid job of the batch, and is that job's cleaned row. */
  lemma SaveRowsFromJobs(rows: map<string, Row>, jobs: seq<Job>, parse: string -> Option<int>,
                         rejects: Row -> bool, u: string)
    requires u in SaveBatch(rows, jobs, Cleaner(parse), rejects).rows
    requires u !in rows || SaveBatch(rows, jobs, Cleaner(parse), rejects).rows[u] != rows[u]
    ensures exists i :: 0 <= i < |jobs| && Savable(jobs[i]) && Trim(jobs[i].url) == u
                        && SaveBatch(rows, jobs, Cleaner(parse), rejects).rows[u] == CleanJob(jobs[i], parse)
  {
    var clean := Cleaner(parse);
    SaveBatchOverrides(rows, jobs, clean, rejects);
    WritesFrom(jobs, clean, rejects, u);
  }

  /** A date the batch stores came from the batch: a row it adds or changes
      has `postedDate` t only when a valid job keyed by that url had
      non-empty date text that `new Date` reads as t. */
  lemma SaveDatesFromJobs(rows: map<string, Row>, jobs: seq<Job>, parse: string -> Option<int>,
                          rejects: Row -> bool, u: string, t: int)
    requires u in SaveBatch(rows, jobs, Cleaner(parse), rejects).rows
    requires u !in rows || SaveBatch(rows, jobs, Cleaner(parse), rejects).rows[u] != rows[u]
    requires SaveBatch(rows, jobs, Cleaner(parse), rejects).rows[u].postedDate == Some(t)
    ensures exists i :: 0 <= i < |jobs| && Savable(jobs[i]) && Trim(jobs[i].url) == u
                        && jobs[i].postedDate.Some? && jobs[i].postedDate.value != ""
                        && parse(jobs[i].postedDate.value) == Some(t)
  {
    SaveRowsFromJobs(rows, jobs, parse, rejects, u);
    var i :| 0 <= i < |jobs| && Savable(jobs[i]) && Trim(jobs[i].url) == u
             && SaveBatch(rows, jobs, Cleaner(parse), rejects).rows[u] == CleanJob(jobs[i], parse);
    assert CleanDate(jobs[i].postedDate, parse) == Some(t);
  }

  /** Last write wins: when no upsert throws, a url holds the row of the last
      valid job of the batch keyed by it. */
  lemma {:induction false} SaveLastWriteWins(jobs: seq<Job>, clean: Cleaning, rejects: Row -> bool, i: nat)
    requires FirstFailure(jobs, clean, rejects).None?
    requires i < |jobs| && Savable(jobs[i])
    requires forall j :: i < j < |jobs| && Savable(jobs[j]) ==> clean(jobs[j]).url != clean(jobs[i]).url
    ensures var w := Writes(jobs, clean, rejects);
      clean(jobs[i]).url in w && w[clean(jobs[i]).url] == clean(jobs[i])
    decreases |jobs|
  {
    var u := clean(jobs[i]).url;
    var rest := Writes(jobs[1..], clean, rejects);
    if i == 0 {
      if u in rest {
        WritesFrom(jobs[1..], clean, rejects, u);
        assert false;
      }
    } else {
      forall j | i - 1 < j < |jobs[1..]| && Savable(jobs[1..][j])
        ensures clean(jobs[1..][j]).url != clean(jobs[1..][i - 1]).url
      {
        assert jobs[1..][j] == jobs[j + 1];
      }
      SaveLastWriteWins(jobs[1..], clean, rejects, i - 1);
    }
  }

  /** The guard tests the untrimmed title, so a title of white space alone
      passes it and, when nothing later in the batch overwrites the row and
      no upsert throws, is stored as the empty string. */
  lemma SaveBlankTitle(rows: map<string, Row>, jobs: seq<Job>, parse: string -> Option<int>,
                       rejects: Row -> bool, i: nat)
    requires FirstFailure(jobs, Cleaner(parse), rejects).None?
    requires i < |jobs| && Savable(jobs[i]) && AllSpaces(jobs[i].title)
    requires forall j :: i < j < |jobs| && Savable(jobs[j]) ==> Trim(jobs[j].url) != Trim(jobs[i].url)
    ensures var after := SaveBatch(rows, jobs, Cleaner(parse), rejects).rows;
      Trim(jobs[i].url) in after && after[Trim(jobs[i].url)].title == ""
  {
    var clean := Cleaner(parse);
    SaveBatchOverrides(rows, jobs, clean, rejects);
    SaveLastWriteWins(jobs, clean, rejects, i);
  }

  /** A job the guard rejects leaves the batch's effect as if it were absent. */
  lemma {:induction false} SaveSkipsInvalid(rows: map<string, Row>, a: seq<Job>, job: Job, b: seq<Job>,
                                            clean: Cleaning, rejects: Row -> bool)
    requires !Savable(job)
    ensures SaveBatch(rows, a + [job] + b, clean, rejects) == SaveBatch(rows, a + b, clean, rejects)
    decreases |a|
  {
    if a == [] {
      assert a + [job] + b == [job] + b;
      assert ([job] + b)[1..] == b;
      assert a + b == b;
    } else {
      assert (a + [job] + b)[0] == a[0] && (a + b)[0] == a[0];
      assert (a + [job] + b)[1..] == a[1..] + [job] + b;
      assert (a + b)[1..] == a[1..] + b;
      var row := clean(a[0]);
      SaveSkipsInvalid(rows, a[1..], job, b, clean, rejects);
      SaveSkipsInvalid(rows[row.url := row], a[1..], job, b, clean, rejects);
    }
  }

  /** An upsert that throws ends the batch: the jobs after it are never
      processed, so appending more jobs changes nothing. */
  lemma {:induction false} SaveStopsAtFailure(rows: map<string, Row>, jobs: seq<Job>, more: seq<Job>,
                                              clean: Cleaning, rejects: Row -> bool)
    requires SaveBatch(rows, jobs, clean, rejects).failed.Some?
    ensures SaveBatch(rows, jobs + more, clean, rejects) == SaveBatch(rows, jobs, clean, rejects)
    decreases |jobs|
  {
    assert (jobs + more)[0] == jobs[0];
    assert (jobs + more)[1..] == jobs[1..] + more;
    var row := clean(jobs[0]);
    if Savable(jobs[0]) && rejects(row) {
    } else if Savable(jobs[0]) {
      SaveStopsAtFailure(rows[row.url := row], jobs[1..], more, clean, rejects);
    } else {
      SaveStopsAtFailure(rows, jobs[1..], more, clean, rejects);
    }
  }

  /** A table in which every row sits under its own url stays so. */
  lemma SaveKeepsKeys(rows: map<string, Row>, jobs: seq<Job>, clean: Cleaning, rejects: Row -> bool)
    requires forall u :: u in rows ==> rows[u].url == u
    ensures var after := SaveBatch(rows, jobs, clean, rejects).rows;
      forall u :: u in after ==> after[u].url == u
  {
    SaveBatchOverrides(rows, jobs, clean, rejects);
  }

  // ---------------------------------------------------------------------
  // The table
  // ---------------------------------------------------------------------

  class JobTable {
    /** The job table, by url. */
    var rows: map<string, Row>
    /** `new Date(text)`. */
    const parse: string -> Option<int>
    /** The upserts the database refuses by throwing. */
    const rejects: Row -> bool

    constructor(rows: map<string, Row>, parse: string -> Option<int>, rejects: Row -> bool)
      ensures this.rows == rows && this.parse == parse && this.rejects == rejects
    {
      this.rows := rows;
      this.parse := parse;
      this.rejects := rejects;
    }

    /** `prisma.job.upsert({ where: { url }, update: row, create: row })`:
        the row replaces or joins the table under its url, unless the
        database throws. */
    method Upsert(row: Row) returns (ok: bool)
      modifies this
      ensures ok == !rejects(row)
      ensures rows == if ok then old(rows)[row.url := row] else old(rows)
    {
      ok := !rejects(row);
      if ok {
        rows := rows[row.url := row];
      }
    }

    /** `saveJobsToDb(jobs)`: returns the row whose upsert threw, if any. */
    method SaveJobsToDb(jobs: seq<Job>) returns (failed: Option<Row>)
      modifies this
      ensures Saved(rows, failed) == SaveBatch(old(rows), jobs, Cleaner(parse), rejects)
    {
      ghost var clean := Cleaner(parse);
      for i := 0 to |jobs|
        invariant SaveBatch(old(rows), jobs, clean, rejects) == SaveBatch(rows, jobs[i..], clean, rejects)
      {
        assert jobs[i..][0] == jobs[i] && jobs[i..][1..] == jobs[i + 1..];
        if !Savable(jobs[i]) {
          continue;
        }
        var cleaned := CleanJob(jobs[i], parse);
        assert cleaned == clean(jobs[i]);
        var ok := Upsert(cleaned);
        if !ok {
          return Some(cleaned);
        }
      }
      failed := None;
    }
  }
}
