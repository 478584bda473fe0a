/** The `Job` record every adapter produces (JobTypes.ts, and the same
    interface at the top of JobScraper.ts). Optional properties that may be
    `undefined` are `Option`s. */
module JobTypes {
  import opened Wrappers

  datatype Job = Job(
    title: string,
    company: string,
    location: string,
    description: string,
    salary: Option<string>,
    postedDate: Option<string>,
    jobType: Option<string>,
    experienceLevel: Option<string>,
    url: string,
    source: string,
    logo: Option<string>)
}
