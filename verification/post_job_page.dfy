/** The job-posting form of the client: its initial values, the parsing of
    the comma-separated skills and tags fields, the option lists of its two
    selects, and the request body it sends to the create-job endpoint. */
module PostJobPage {
  import opened Common
  import opened Text
  import opened JobModel
  import opened JobRoutes

  // ---------------------------------------------------------------------
  // Comma-separated lists

  function NonEmpty(): string -> bool {
    (s: string) => s != ""
  }

  /** The skills and tags fields as the form sends them: nothing for an
      empty field, otherwise the comma-separated pieces, trimmed, with the
      empty ones dropped. */
  function ParseCsv(s: string): (r: seq<string>)
    ensures s == "" ==> r == []
    ensures forall k :: 0 <= k < |r| ==> r[k] != "" && IsTrimmed(r[k]) && ',' !in r[k]
  {
    if s == "" then []
    else
      var pieces := TrimEach(Split(s, ','));
      forall k | 0 <= k < |pieces| ensures ',' !in pieces[k] {
        TrimWithout(Split(s, ',')[k], ',');
      }
      FilterMembers(pieces, NonEmpty());
      Filter(pieces, NonEmpty())
  }

  /** Reference definition: the trimmed forms of the pieces that are not
      blank, in their order. */
  function NonBlankPieces(pieces: seq<string>): seq<string> {
    if pieces == [] then []
    else (if IsBlank(pieces[0]) then [] else [Trim(pieces[0])]) + NonBlankPieces(pieces[1..])
  }

  /** How many pieces are not blank. */
  function CountNonBlank(pieces: seq<string>): nat {
    if pieces == [] then 0
    else (if IsBlank(pieces[0]) then 0 else 1) + CountNonBlank(pieces[1..])
  }

  lemma {:induction false} FilterTrimEach(pieces: seq<string>)
    ensures Filter(TrimEach(pieces), NonEmpty()) == NonBlankPieces(pieces)
  {
    if pieces != [] {
      TrimEachCons(pieces);
      FilterTrimEach(pieces[1..]);
    }
  }

  /** Trimming a list trims its head and then its tail. */
  lemma TrimEachCons(pieces: seq<string>)
    requires pieces != []
    ensures TrimEach(pieces)[0] == Trim(pieces[0]) && TrimEach(pieces)[1..] == TrimEach(pieces[1..])
    ensures Trim(pieces[0]) == "" <==> IsBlank(pieces[0])
  {
  }

  lemma {:induction false} CountNonBlankPieces(pieces: seq<string>)
    ensures |NonBlankPieces(pieces)| == CountNonBlank(pieces)
  {
    if pieces != [] {
      CountNonBlankPieces(pieces[1..]);
    }
  }

  /** The parsed list is the non-blank comma-separated pieces, trimmed, in
      their order, and there are as many as there are such pieces. */
  lemma ParseCsvMeaning(s: string)
    ensures ParseCsv(s) == NonBlankPieces(Split(s, ','))
    ensures |ParseCsv(s)| == CountNonBlank(Split(s, ','))
  {
    FilterTrimEach(Split(s, ','));
    CountNonBlankPieces(Split(s, ','));
  }

  /** A list of trimmed, non-empty entries without commas comes back
      unchanged from joining it with commas and parsing it again. */
  lemma CsvRoundTrip(items: seq<string>)
    requires |items| >= 1
    requires forall k :: 0 <= k < |items| ==> items[k] != "" && IsTrimmed(items[k]) && ',' !in items[k]
    ensures ParseCsv(Join(items, ',')) == items
  {
    var joined := Join(items, ',');
    assert joined != "" by {
      assert |joined| >= |items[0]|;
    }
    SplitJoin(items, ',');
    TrimEachTrimmed(items);
    FilterKeepsAll(items, NonEmpty());
    assert ParseCsv(joined) == Filter(TrimEach(Split(joined, ',')), NonEmpty());
  }

  // ---------------------------------------------------------------------
  // The form

  /** The form's fields. The budget fields hold what `parseInt` makes of
      the text typed in, `None` standing for `NaN`. */
  datatype JobForm = JobForm(
    title: string,
    description: string,
    company: string,
    location: string,
    jobType: string,
    experienceLevel: string,
    requiredSkills: string,
    tags: string,
    minBudget: Option<int>,
    maxBudget: Option<int>,
    currency: string,
    deadline: string)

  /** The form as it first appears; `parseInt('')` is `NaN`. */
  const InitialForm := JobForm("", "", "", "Remote", "full-time", "mid", "", "", None, None, "USD", "")

  /** The values offered by the job-type and experience selects. */
  const JobTypeOptions: seq<string> := ["full-time", "part-time", "contract", "freelance", "internship"]
  const ExperienceOptions: seq<string> := ["entry", "junior", "mid", "senior", "lead", "executive"]

  /** Every option is a value the schema accepts, and every value the schema
      accepts is offered; the initial selections are among them and the
      initial location and currency are the schema's defaults. */
  lemma OptionsMatchSchema()
    ensures forall v :: v in JobTypeOptions <==> ParseJobType(v).Some?
    ensures forall v :: v in ExperienceOptions <==> ParseExperience(v).Some?
    ensures ParseJobType(InitialForm.jobType) == Some(FullTime)
    ensures ParseExperience(InitialForm.experienceLevel) == Some(Mid)
    ensures InitialForm.location == DefaultLocation && InitialForm.currency == DefaultCurrency
  {
  }

  /** The request body `handleSubmit` sends: every text field as typed,
      the two lists parsed, the currency inside the budget, and no deadline
      when that field is empty. */
  function JobPayload(f: JobForm): (r: JobBody)
    ensures r.requiredSkills == Some(ParseCsv(f.requiredSkills)) && r.tags == Some(ParseCsv(f.tags))
    ensures forall k :: 0 <= k < |r.requiredSkills.value| ==> r.requiredSkills.value[k] != ""
    ensures forall k :: 0 <= k < |r.tags.value| ==> r.tags.value[k] != ""
    ensures RequiredGiven(r) <==>
      f.title != "" && f.description != "" && f.company != "" && f.jobType != "" && f.experienceLevel != ""
    ensures r.deadline.None? <==> f.deadline == ""
  {
    JobBody(
      Some(f.title),
      Some(f.description),
      Some(ParseCsv(f.requiredSkills)),
      Some(BudgetBody(f.minBudget, f.maxBudget, Some(f.currency))),
      Some(f.jobType),
      Some(f.location),
      Some(f.company),
      Some(f.experienceLevel),
      Some(ParseCsv(f.tags)),
      if f.deadline == "" then None else Some(f.deadline))
  }

  /** Skills and tags are parsed by one and the same rule. */
  lemma SkillsAndTagsAlike(f: JobForm)
    requires f.requiredSkills == f.tags
    ensures JobPayload(f).requiredSkills == JobPayload(f).tags
  {
  }

  /** The untouched form is refused by the server: its title is empty. */
  lemma InitialFormRefused(caller: Id, id: Id)
    ensures PrepareJob(JobPayload(InitialForm), caller, id) == Reply(400, "Required fields are missing", None)
  {
  }

  /** A form with a non-blank title, a description and a company, values
      from the two selects and two non-zero budget figures is accepted, and
      the stored posting carries the parsed skills and tags unchanged. */
  lemma FilledFormAccepted(f: JobForm, caller: Id, id: Id)
    requires !IsBlank(f.title) && f.description != "" && f.company != ""
    requires f.jobType in JobTypeOptions && f.experienceLevel in ExperienceOptions
    requires NonZero(f.minBudget) && NonZero(f.maxBudget)
    ensures var r := PrepareJob(JobPayload(f), caller, id);
            && r.status == 201
            && r.body.value.requiredSkills == ParseCsv(f.requiredSkills)
            && r.body.value.tags == ParseCsv(f.tags)
            && r.body.value.budget == Budget(f.minBudget.value, f.maxBudget.value, f.currency)
  {
    FilledFormPasses(f);
    TrimEachTrimmed(ParseCsv(f.requiredSkills));
    TrimEachTrimmed(ParseCsv(f.tags));
  }

  /** Such a form passes the handler's checks and the schema's. */
  lemma FilledFormPasses(f: JobForm)
    requires !IsBlank(f.title) && f.description != "" && f.company != ""
    requires f.jobType in JobTypeOptions && f.experienceLevel in ExperienceOptions
    requires NonZero(f.minBudget) && NonZero(f.maxBudget)
    ensures RequiredGiven(JobPayload(f)) && BudgetGiven(JobPayload(f)) && SchemaAccepts(JobPayload(f))
  {
    OptionsMatchSchema();
  }
}
