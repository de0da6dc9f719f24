/** The job-posting document: its enums, embedded budget and applicant
    records, defaults, and the constraints its schema enforces on save. */
module JobModel {
  import opened Common
  import opened Text

  datatype JobType = FullTime | PartTime | Contract | Freelance | Internship

  const JobTypeNames: seq<string> := ["full-time", "part-time", "contract", "freelance", "internship"]

  function JobTypeName(t: JobType): (r: string)
    ensures r in JobTypeNames
  {
    match t
    case FullTime => "full-time"
    case PartTime => "part-time"
    case Contract => "contract"
    case Freelance => "freelance"
    case Internship => "internship"
  }

  /** The enum validator on `jobType`: exactly the five names are accepted. */
  function ParseJobType(s: string): (r: Option<JobType>)
    ensures r.Some? <==> s in JobTypeNames
    ensures r.Some? ==> JobTypeName(r.value) == s
  {
    if s == "full-time" then Some(FullTime)
    else if s == "part-time" then Some(PartTime)
    else if s == "contract" then Some(Contract)
    else if s == "freelance" then Some(Freelance)
    else if s == "internship" then Some(Internship)
    else None
  }

  /** Every job type's name is accepted back as that type. */
  lemma JobTypeRoundTrip(t: JobType)
    ensures ParseJobType(JobTypeName(t)) == Some(t)
  {
  }

  /** Lifecycle of a posting; new postings are `Active`. */
  datatype JobStatus = Active | Closed | Draft

  /** Review state of one application; new applications are `Pending`. */
  datatype ApplicantStatus = Pending | Accepted | Rejected

  const DefaultJobStatus := Active
  const DefaultApplicantStatus := Pending
  const DefaultLocation := "Remote"
  const DefaultCurrency := "USD"

  /** `budget`: `min` and `max` are required numbers and nothing orders them. */
  datatype Budget = Budget(min: int, max: int, currency: string)

  /** One entry of `applicants`. `appliedAt` is a timestamp. */
  datatype Applicant = Applicant(user: Id, appliedAt: int, status: ApplicantStatus)

  datatype JobPost = JobPost(
    id: Id,
    title: string,
    description: string,
    requiredSkills: seq<string>,
    budget: Budget,
    jobType: JobType,
    location: string,
    company: string,
    experienceLevel: ExperienceLevel,
    tags: seq<string>,
    postedBy: Id,
    applicants: seq<Applicant>,
    status: JobStatus,
    deadline: Option<string>)

  /** What the schema guarantees of a saved posting: the trimmed title and
      the description and company are present (a required string must not
      be empty), skills and tags are trimmed. The enums are guaranteed by the
      field types. */
  predicate ValidJob(j: JobPost) {
    && j.title != "" && IsTrimmed(j.title)
    && j.description != ""
    && j.company != ""
    && AllTrimmed(j.requiredSkills)
    && AllTrimmed(j.tags)
  }

  /** The caller has an entry in `applicants`. */
  predicate HasApplied(applicants: seq<Applicant>, user: Id) {
    exists k :: 0 <= k < |applicants| && applicants[k].user == user
  }

  /** At most one application per user. */
  predicate OnePerUser(applicants: seq<Applicant>) {
    forall i, j :: 0 <= i < j < |applicants| ==> applicants[i].user != applicants[j].user
  }
}
