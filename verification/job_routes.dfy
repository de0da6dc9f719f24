/** The job endpoints: the public listing (filter predicate and pagination),
    job creation with its validation and defaults, apply-once, and the
    caller's own postings. The collection is a sequence kept newest first,
    so the listing's sort by creation time, newest first, is sequence order. */
module JobRoutes {
  import opened Common
  import opened Text
  import opened JobModel
  import opened Pagination

  // ---------------------------------------------------------------------
  // Listing filter

  /** The listing's query-string filters; `None` is an absent parameter. */
  datatype ListingParams = ListingParams(
    q: Option<string>,
    skills: Option<string>,
    location: Option<string>,
    jobType: Option<string>,
    experienceLevel: Option<string>)

  /** The store filter object; a `None` field is a key the object lacks. */
  datatype JobQuery = JobQuery(
    status: JobStatus,
    text: Option<string>,
    requiredSkills: Option<seq<string>>,
    location: Option<string>,
    jobType: Option<string>,
    experienceLevel: Option<string>)

  /** A location, job-type or experience parameter constrains the listing
      only when it is given and is not the sentinel `all`. */
  predicate Selective(o: Option<string>) {
    Given(o) && o.value != "all"
  }

  /** The filter object the listing handler builds from its parameters. */
  function ListingQuery(p: ListingParams): JobQuery {
    JobQuery(
      Active,
      if Given(p.q) then p.q else None,
      if Given(p.skills) then Some(CommaList(p.skills.value)) else None,
      if Selective(p.location) then p.location else None,
      if Selective(p.jobType) then p.jobType else None,
      if Selective(p.experienceLevel) then p.experienceLevel else None)
  }

  /** Builds the filter object key by key, as the handler does. */
  method BuildListingQuery(p: ListingParams) returns (query: JobQuery)
    ensures query == ListingQuery(p)
    ensures query.status == Active
  {
    query := JobQuery(Active, None, None, None, None, None);
    if Given(p.q) {
      query := query.(text := p.q);
    }
    if Given(p.skills) {
      query := query.(requiredSkills := Some(CommaList(p.skills.value)));
    }
    if Given(p.location) && p.location.value != "all" {
      query := query.(location := p.location);
    }
    if Given(p.jobType) && p.jobType.value != "all" {
      query := query.(jobType := p.jobType);
    }
    if Given(p.experienceLevel) && p.experienceLevel.value != "all" {
      query := query.(experienceLevel := p.experienceLevel);
    }
  }

  /** The `$or` of case-insensitive matches on title, description, company. */
  predicate TextMatch(j: JobPost, q: string) {
    ContainsIgnoreCase(j.title, q) || ContainsIgnoreCase(j.description, q)
    || ContainsIgnoreCase(j.company, q)
  }

  /** A document satisfies the filter object: every key present in it holds. */
  predicate Matches(query: JobQuery, j: JobPost) {
    && j.status == query.status
    && (query.text.Some? ==> TextMatch(j, query.text.value))
    && (query.requiredSkills.Some? ==> Intersects(j.requiredSkills, query.requiredSkills.value))
    && (query.location.Some? ==> ContainsIgnoreCase(j.location, query.location.value))
    && (query.jobType.Some? ==> JobTypeName(j.jobType) == query.jobType.value)
    && (query.experienceLevel.Some? ==> ExperienceName(j.experienceLevel) == query.experienceLevel.value)
  }

  /** The documents a filter object selects, in store order. */
  function Matching(jobs: seq<JobPost>, query: JobQuery): (r: seq<JobPost>)
    ensures forall k :: 0 <= k < |r| ==> r[k] in jobs && Matches(query, r[k])
    ensures forall k :: 0 <= k < |jobs| && Matches(query, jobs[k]) ==> jobs[k] in r
  {
    var keep := (j: JobPost) => Matches(query, j);
    FilterMembers(jobs, keep);
    Filter(jobs, keep)
  }

  /** The listing's match condition, one conjunct per constraining parameter:
      status `active` always; `q` against title, description or company
      ignoring case; `skills` as an intersection with the comma-split,
      trimmed list; `location` ignoring case; `jobType` and
      `experienceLevel` exactly. */
  lemma ListingMatchIff(p: ListingParams, j: JobPost)
    ensures Matches(ListingQuery(p), j) <==>
      && j.status == Active
      && (Given(p.q) ==> TextMatch(j, p.q.value))
      && (Given(p.skills) ==> Intersects(j.requiredSkills, CommaList(p.skills.value)))
      && (Selective(p.location) ==> ContainsIgnoreCase(j.location, p.location.value))
      && (Selective(p.jobType) ==> JobTypeName(j.jobType) == p.jobType.value)
      && (Selective(p.experienceLevel) ==> ExperienceName(j.experienceLevel) == p.experienceLevel.value)
  {
  }

  /** Closed and draft postings never appear in the listing. */
  lemma ListingShowsOnlyActive(p: ListingParams, jobs: seq<JobPost>, k: int)
    requires 0 <= k < |Matching(jobs, ListingQuery(p))|
    ensures Matching(jobs, ListingQuery(p))[k].status == Active
    ensures Matching(jobs, ListingQuery(p))[k] in jobs
  {
  }

  /** With no constraining parameter the listing is every active posting. */
  lemma {:induction false} UnfilteredListingIsAllActive(p: ListingParams, jobs: seq<JobPost>)
    requires !Given(p.q) && !Given(p.skills)
    requires !Selective(p.location) && !Selective(p.jobType) && !Selective(p.experienceLevel)
    ensures Matching(jobs, ListingQuery(p)) == Filter(jobs, (j: JobPost) => j.status == Active)
  {
    if jobs != [] {
      UnfilteredListingIsAllActive(p, jobs[1..]);
    }
  }

  /** `narrow` keeps every constraint of `wide` and may add more. */
  predicate Narrows(narrow: ListingParams, wide: ListingParams) {
    && (Given(wide.q) ==> narrow.q == wide.q)
    && (Given(wide.skills) ==> narrow.skills == wide.skills)
    && (Selective(wide.location) ==> narrow.location == wide.location)
    && (Selective(wide.jobType) ==> narrow.jobType == wide.jobType)
    && (Selective(wide.experienceLevel) ==> narrow.experienceLevel == wide.experienceLevel)
  }

  /** Adding a filter never enlarges the result: every posting the narrower
      parameters list is listed by the wider ones, and there are no more of
      them. */
  lemma NarrowingNeverEnlarges(narrow: ListingParams, wide: ListingParams, jobs: seq<JobPost>)
    requires Narrows(narrow, wide)
    ensures forall j :: j in Matching(jobs, ListingQuery(narrow)) ==> j in Matching(jobs, ListingQuery(wide))
    ensures |Matching(jobs, ListingQuery(narrow))| <= |Matching(jobs, ListingQuery(wide))|
  {
    var n := ListingQuery(narrow);
    var w := ListingQuery(wide);
    forall j | Matches(n, j) ensures Matches(w, j) {
      ListingMatchIff(narrow, j);
      ListingMatchIff(wide, j);
    }
    FilterStricter(jobs, (j: JobPost) => Matches(n, j), (j: JobPost) => Matches(w, j));
  }

  // ---------------------------------------------------------------------
  // Creating a posting

  /** `budget` of a request body; each number may be missing. */
  datatype BudgetBody = BudgetBody(min: Option<int>, max: Option<int>, currency: Option<string>)

  /** The create-job request body. */
  datatype JobBody = JobBody(
    title: Option<string>,
    description: Option<string>,
    requiredSkills: Option<seq<string>>,
    budget: Option<BudgetBody>,
    jobType: Option<string>,
    location: Option<string>,
    company: Option<string>,
    experienceLevel: Option<string>,
    tags: Option<seq<string>>,
    deadline: Option<string>)

  /** All five required strings are truthy. */
  predicate RequiredGiven(b: JobBody) {
    Given(b.title) && Given(b.description) && Given(b.company)
    && Given(b.jobType) && Given(b.experienceLevel)
  }

  /** A truthy number: present and not 0. */
  predicate NonZero(o: Option<int>) {
    o.Some? && o.value != 0
  }

  predicate BudgetGiven(b: JobBody) {
    b.budget.Some? && NonZero(b.budget.value.min) && NonZero(b.budget.value.max)
  }

  /** What the schema adds once the handler's checks pass: both enums must
      name a value, and the title must survive its `trim`. */
  predicate SchemaAccepts(b: JobBody)
    requires RequiredGiven(b)
  {
    ParseJobType(b.jobType.value).Some?
    && ParseExperience(b.experienceLevel.value).Some?
    && Trim(b.title.value) != ""
  }

  /** The create-job handler up to the save: the 400 checks in order, then
      the document with its defaults, or 500 when the schema rejects it. */
  function PrepareJob(b: JobBody, caller: Id, id: Id): (r: Reply<JobPost>)
    ensures !RequiredGiven(b) ==> r == Reply(400, "Required fields are missing", None)
    ensures RequiredGiven(b) && !BudgetGiven(b) ==> r == Reply(400, "Budget range is required", None)
    ensures RequiredGiven(b) && BudgetGiven(b) && !SchemaAccepts(b) ==> r == Reply(500, "Server error", None)
    ensures r.status == 201 <==> RequiredGiven(b) && BudgetGiven(b) && SchemaAccepts(b)
    ensures r.status == 201 ==> r.body.Some? && ValidJob(r.body.value)
    ensures r.status == 201 ==>
      var j := r.body.value;
      && j.id == id && j.postedBy == caller
      && j.status == Active && j.applicants == []
      && j.title == Trim(b.title.value)
      && j.description == b.description.value && j.company == b.company.value
      && JobTypeName(j.jobType) == b.jobType.value
      && ExperienceName(j.experienceLevel) == b.experienceLevel.value
      && j.location == (if Given(b.location) then b.location.value else DefaultLocation)
      && j.requiredSkills == (if b.requiredSkills.Some? then TrimEach(b.requiredSkills.value) else [])
      && j.tags == (if b.tags.Some? then TrimEach(b.tags.value) else [])
      && j.deadline == (if Given(b.deadline) then b.deadline else None)
      && j.budget.min == b.budget.value.min.value && j.budget.max == b.budget.value.max.value
      && j.budget.currency == (if b.budget.value.currency.Some? then b.budget.value.currency.value else DefaultCurrency)
  {
    if !RequiredGiven(b) then Reply(400, "Required fields are missing", None)
    else if !BudgetGiven(b) then Reply(400, "Budget range is required", None)
    else if !SchemaAccepts(b) then Reply(500, "Server error", None)
    else
      var budget := b.budget.value;
      var job := JobPost(
        id,
        Trim(b.title.value),
        b.description.value,
        if b.requiredSkills.Some? then TrimEach(b.requiredSkills.value) else [],
        Budget(budget.min.value, budget.max.value,
               if budget.currency.Some? then budget.currency.value else DefaultCurrency),
        ParseJobType(b.jobType.value).value,
        if Given(b.location) then b.location.value else DefaultLocation,
        b.company.value,
        ParseExperience(b.experienceLevel.value).value,
        if b.tags.Some? then TrimEach(b.tags.value) else [],
        caller,
        [],
        DefaultJobStatus,
        if Given(b.deadline) then b.deadline else None);
      Reply(201, "Job created successfully", Some(job))
  }

  // ---------------------------------------------------------------------
  // Applying

  /** `findById`: the position of the posting with that id, if any. */
  function IndexOf(jobs: seq<JobPost>, id: Id): (r: Option<nat>)
    ensures r.Some? ==> r.value < |jobs| && jobs[r.value].id == id
    ensures r.None? ==> forall k :: 0 <= k < |jobs| ==> jobs[k].id != id
  {
    FirstIndex(jobs, (j: JobPost) => j.id == id)
  }

  /** The posting with one more, pending, application by `user`. */
  function WithApplicant(j: JobPost, user: Id, now: int): JobPost {
    j.(applicants := j.applicants + [Applicant(user, now, DefaultApplicantStatus)])
  }

  /** The apply handler as a step on the collection: 404 for an unknown id,
      400 with nothing changed when the caller already applied, otherwise
      one application appended to that posting. */
  function ApplyStep(jobs: seq<JobPost>, id: Id, caller: Id, now: int): (r: (seq<JobPost>, Reply<()>))
    ensures |r.0| == |jobs|
    ensures r.1.status in {200, 400, 404}
    ensures r.1.status != 200 ==> r.0 == jobs
  {
    var i := IndexOf(jobs, id);
    if i.None? then (jobs, Reply(404, "Job not found", None))
    else if HasApplied(jobs[i.value].applicants, caller) then
      (jobs, Reply(400, "Already applied to this job", None))
    else
      (jobs[i.value := WithApplicant(jobs[i.value], caller, now)], Reply(200, "Applied successfully", None))
  }

  /** Applying changes only the `applicants` of the posting with that id,
      and there it appends exactly one pending entry for the caller. */
  lemma ApplyChangesOneList(jobs: seq<JobPost>, id: Id, caller: Id, now: int)
    ensures var (after, reply) := ApplyStep(jobs, id, caller, now);
      var i := IndexOf(jobs, id);
      && |after| == |jobs|
      && (reply.status == 404 <==> forall k :: 0 <= k < |jobs| ==> jobs[k].id != id)
      && (reply.status == 400 <==> i.Some? && HasApplied(jobs[i.value].applicants, caller))
      && (reply.status == 200 <==> i.Some? && !HasApplied(jobs[i.value].applicants, caller))
      && (reply.status == 400 ==> reply.message == "Already applied to this job")
      && (reply.status != 200 ==> after == jobs)
      && (reply.status == 200 ==> exists k :: 0 <= k < |jobs| && jobs[k].id == id && !HasApplied(jobs[k].applicants, caller))
      && forall k :: 0 <= k < |jobs| ==>
           after[k] == (if reply.status == 200 && IndexOf(jobs, id) == Some(k)
                        then jobs[k].(applicants := jobs[k].applicants + [Applicant(caller, now, Pending)])
                        else jobs[k])
  {
  }

  /** At most one application per user is preserved by applying. */
  lemma ApplyKeepsOnePerUser(jobs: seq<JobPost>, id: Id, caller: Id, now: int)
    requires forall k :: 0 <= k < |jobs| ==> OnePerUser(jobs[k].applicants)
    ensures var after := ApplyStep(jobs, id, caller, now).0;
      forall k :: 0 <= k < |after| ==> OnePerUser(after[k].applicants)
  {
    var i := IndexOf(jobs, id);
    if i.Some? && !HasApplied(jobs[i.value].applicants, caller) {
      var a := jobs[i.value].applicants;
      var a' := a + [Applicant(caller, now, Pending)];
      forall x, y | 0 <= x < y < |a'| ensures a'[x].user != a'[y].user {
        if y == |a| {
          assert a'[x] == a[x];
        }
      }
    }
  }

  /** Applying twice: the second attempt is refused with 400 and leaves the
      collection as the first left it. */
  lemma ApplyTwiceConflicts(jobs: seq<JobPost>, id: Id, caller: Id, t1: int, t2: int)
    requires ApplyStep(jobs, id, caller, t1).1.status == 200
    ensures var after := ApplyStep(jobs, id, caller, t1).0;
      && ApplyStep(after, id, caller, t2).1 == Reply(400, "Already applied to this job", None)
      && ApplyStep(after, id, caller, t2).0 == after
  {
    var i := IndexOf(jobs, id).value;
    var after := ApplyStep(jobs, id, caller, t1).0;
    IndexStable(jobs, i, WithApplicant(jobs[i], caller, t1));
    var a := after[i].applicants;
    assert a[|a| - 1].user == caller;
  }

  /** Replacing a posting by one with the same id keeps every lookup. */
  lemma {:induction false} IndexStable(jobs: seq<JobPost>, i: nat, j: JobPost)
    requires i < |jobs| && j.id == jobs[i].id
    ensures forall id :: IndexOf(jobs[i := j], id) == IndexOf(jobs, id)
  {
    forall id {
      FirstIndexAgrees(jobs[i := j], jobs, (x: JobPost) => x.id == id);
    }
  }

  // ---------------------------------------------------------------------
  // The collection and its handlers

  /** No two postings share an id. */
  predicate DistinctIds(jobs: seq<JobPost>) {
    forall a, b :: 0 <= a < b < |jobs| ==> jobs[a].id != jobs[b].id
  }

  /** The postings of `user`, as the posted-by endpoint returns them. */
  function PostedBy(jobs: seq<JobPost>, user: Id): (r: seq<JobPost>)
    ensures forall k :: 0 <= k < |r| ==> r[k] in jobs && r[k].postedBy == user
    ensures forall k :: 0 <= k < |jobs| && jobs[k].postedBy == user ==> jobs[k] in r
  {
    var keep := PostedByUser(user);
    FilterMembers(jobs, keep);
    Filter(jobs, keep)
  }

  /** The test `{ postedBy: user }` applies to one posting. */
  function PostedByUser(user: Id): JobPost -> bool {
    (j: JobPost) => j.postedBy == user
  }

  class JobBoard {
    /** The collection, newest posting first. */
    var jobs: seq<JobPost>

    ghost predicate Valid()
      reads this
    {
      && DistinctIds(jobs)
      && forall k :: 0 <= k < |jobs| ==> ValidJob(jobs[k]) && OnePerUser(jobs[k].applicants)
    }

    constructor ()
      ensures Valid() && jobs == []
    {
      jobs := [];
    }

    /** `GET /jobs`: the page of matching postings and its envelope; an
        absent `page` is 1 and an absent `limit` is 10. */
    method List(p: ListingParams, page: Option<int>, limit: Option<int>) returns (items: seq<JobPost>, info: PageInfo)
      requires PageParams(page, limit)
      ensures var pg := OrDefault(page, DefaultPage);
        var lim := OrDefault(limit, DefaultLimit);
        var matching := Matching(jobs, ListingQuery(p));
        && items == Window(matching, Skip(pg, lim), lim)
        && info == Envelope(pg, lim, |matching|, |items|)
      ensures page.None? ==> info.current == 1 && !info.hasPrev
      ensures limit.None? ==> |items| <= 10
      ensures limit.Some? ==> |items| <= limit.value
      ensures forall k :: 0 <= k < |items| ==> items[k] in jobs && items[k].status == Active
    {
      var pg := if page.Some? then page.value else DefaultPage;
      var lim := if limit.Some? then limit.value else DefaultLimit;
      var query := BuildListingQuery(p);
      var matching := Matching(jobs, query);
      items := Window(matching, Skip(pg, lim), lim);
      info := Envelope(pg, lim, |matching|, |items|);
    }

    /** `GET /jobs/:id`. */
    method Get(id: Id) returns (r: Reply<JobPost>)
      ensures r.status == 404 <==> forall k :: 0 <= k < |jobs| ==> jobs[k].id != id
      ensures r.status == 404 ==> r == Reply(404, "Job not found", None)
      ensures r.status != 404 ==> r.status == 200 && r.body == Some(jobs[IndexOf(jobs, id).value])
      ensures r.status == 200 ==> r.body.Some? && r.body.value in jobs && r.body.value.id == id
    {
      var i := IndexOf(jobs, id);
      if i.None? {
        return Reply(404, "Job not found", None);
      }
      r := Reply(200, "", Some(jobs[i.value]));
    }

    /** `POST /jobs`: a valid posting is stored in front of the others. */
    method Create(b: JobBody, caller: Id, id: Id) returns (r: Reply<JobPost>)
      requires Valid()
      requires forall k :: 0 <= k < |jobs| ==> jobs[k].id != id
      modifies this
      ensures Valid()
      ensures r == PrepareJob(b, caller, id)
      ensures jobs == if r.status == 201 then [r.body.value] + old(jobs) else old(jobs)
    {
      r := PrepareJob(b, caller, id);
      if r.status == 201 {
        jobs := [r.body.value] + jobs;
      }
    }

    /** `POST /jobs/:id/apply`: look the posting up, search its applicants
      for the caller, and push one entry if there is none. */
    method Apply(id: Id, caller: Id, now: int) returns (r: Reply<()>)
      requires Valid()
      modifies this
      ensures Valid()
      ensures (jobs, r) == ApplyStep(old(jobs), id, caller, now)
    {
      ApplyKeepsOnePerUser(jobs, id, caller, now);
      var i := IndexOf(jobs, id);
      if i.None? {
        return Reply(404, "Job not found", None);
      }
      var job := jobs[i.value];
      var k := 0;
      while k < |job.applicants| && job.applicants[k].user != caller
        invariant 0 <= k <= |job.applicants|
        invariant forall m :: 0 <= m < k ==> job.applicants[m].user != caller
      {
        k := k + 1;
      }
      if k < |job.applicants| {
        return Reply(400, "Already applied to this job", None);
      }
      jobs := jobs[i.value := job.(applicants := job.applicants + [Applicant(caller, now, Pending)])];
      r := Reply(200, "Applied successfully", None);
    }

    /** `GET /jobs/user/posted`. */
    method Posted(caller: Id) returns (r: seq<JobPost>)
      ensures r == PostedBy(jobs, caller)
      ensures forall k :: 0 <= k < |r| ==> r[k].postedBy == caller
    {
      r := PostedBy(jobs, caller);
    }
  }
}
