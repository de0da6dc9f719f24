/** The job-search page of the client: its filter record, the query string
    it sends for those filters, how the server reads that query string back,
    and the two display rules for a listed job (description truncation and
    the overflow of skill chips). */
module JobsPage {
  import opened Common
  import opened Text
  import opened JobRoutes

  // ---------------------------------------------------------------------
  // The filter record

  /** The five filters, in the order the page declares them. */
  datatype Filters = Filters(q: string, skills: string, location: string, jobType: string, experienceLevel: string)

  datatype FilterKey = Q | Skills | Location | JobTypeKey | ExperienceLevelKey

  /** The filters as the page first shows them: nothing typed, both selects
      on `all`. */
  const InitialFilters := Filters("", "", "", "all", "all")

  function KeyName(k: FilterKey): string {
    match k
    case Q => "q"
    case Skills => "skills"
    case Location => "location"
    case JobTypeKey => "jobType"
    case ExperienceLevelKey => "experienceLevel"
  }

  function Get(f: Filters, k: FilterKey): string {
    match k
    case Q => f.q
    case Skills => f.skills
    case Location => f.location
    case JobTypeKey => f.jobType
    case ExperienceLevelKey => f.experienceLevel
  }

  /** `handleFilterChange(key, value)`: that filter takes the value and the
      others keep theirs. */
  function HandleFilterChange(f: Filters, k: FilterKey, v: string): (r: Filters)
    ensures Get(r, k) == v
    ensures forall other :: other != k ==> Get(r, other) == Get(f, other)
  {
    match k
    case Q => f.(q := v)
    case Skills => f.(skills := v)
    case Location => f.(location := v)
    case JobTypeKey => f.(jobType := v)
    case ExperienceLevelKey => f.(experienceLevel := v)
  }

  /** `clearFilters`: back to the record the page starts with, whatever
      was changed before. */
  function ClearFilters(f: Filters): (r: Filters)
    ensures r == InitialFilters
    ensures forall k :: Get(r, k) == Get(InitialFilters, k)
  {
    Filters("", "", "", "all", "all")
  }

  // ---------------------------------------------------------------------
  // The query string

  /** One `key=value` pair of a query string. */
  datatype Param = Param(key: string, value: string)

  /** The filter record's entries, in declaration order. */
  function Entries(f: Filters): seq<Param> {
    [Param("q", f.q), Param("skills", f.skills), Param("location", f.location),
     Param("jobType", f.jobType), Param("experienceLevel", f.experienceLevel)]
  }

  /** The page's test on every entry: a truthy value that is not `all`. */
  function Sends(): Param -> bool {
    (p: Param) => p.value != "" && p.value != "all"
  }

  /** The query string `fetchJobs` builds, as the page's code has it. */
  function SentParams(f: Filters): seq<Param> {
    Filter(Entries(f), Sends())
  }

  /** `fetchJobs`: walks the entries in order and appends each one that
      passes the test. */
  method QueryParams(f: Filters) returns (params: seq<Param>)
    ensures params == SentParams(f)
    ensures forall k :: 0 <= k < |params| ==> params[k].value != "" && params[k].value != "all"
  {
    var entries := Entries(f);
    params := [];
    for i := 0 to |entries|
      invariant params == Filter(entries[..i], Sends())
    {
      FilterAppend(entries[..i], [entries[i]], Sends());
      assert entries[..i + 1] == entries[..i] + [entries[i]];
      var e := entries[i];
      if e.value != "" && e.value != "all" {
        params := params + [e];
      }
    }
    assert entries[..|entries|] == entries;
  }

  /** The pair for one filter when the page sends it. */
  function Emit(key: string, value: string): seq<Param> {
    if value != "" && value != "all" then [Param(key, value)] else []
  }

  /** The query string holds exactly the filters with a value other than
      empty and `all`, in the order q, skills, location, jobType,
      experienceLevel. */
  lemma SentParamsInOrder(f: Filters)
    ensures SentParams(f) ==
      Emit("q", f.q) + Emit("skills", f.skills) + Emit("location", f.location)
      + Emit("jobType", f.jobType) + Emit("experienceLevel", f.experienceLevel)
  {
    var e := Entries(f);
    assert e == [e[0]] + [e[1]] + [e[2]] + [e[3]] + [e[4]];
    FilterAppend([e[0]] + [e[1]] + [e[2]] + [e[3]], [e[4]], Sends());
    FilterAppend([e[0]] + [e[1]] + [e[2]], [e[3]], Sends());
    FilterAppend([e[0]] + [e[1]], [e[2]], Sends());
    FilterAppend([e[0]], [e[1]], Sends());
    forall i | 0 <= i < 5 ensures Filter([e[i]], Sends()) == Emit(e[i].key, e[i].value) {
      assert [e[i]][1..] == [];
    }
  }

  /** The untouched page sends no filter at all, and neither does a page
      whose filters were cleared. */
  lemma InitialSendsNothing(f: Filters)
    ensures SentParams(InitialFilters) == []
    ensures SentParams(ClearFilters(f)) == []
  {
    SentParamsInOrder(InitialFilters);
  }

  // ---------------------------------------------------------------------
  // How the server reads the query string back

  /** The value of a key in a query string, if the key occurs. */
  function Lookup(ps: seq<Param>, key: string): (r: Option<string>)
    ensures r.None? <==> forall i :: 0 <= i < |ps| ==> ps[i].key != key
    ensures r.Some? ==> Param(key, r.value) in ps
  {
    if ps == [] then None
    else if ps[0].key == key then Some(ps[0].value)
    else Lookup(ps[1..], key)
  }

  /** No key occurs twice. */
  predicate DistinctKeys(ps: seq<Param>) {
    forall i, j :: 0 <= i < j < |ps| ==> ps[i].key != ps[j].key
  }

  /** Filtering a query string with distinct keys keeps a key's value
      exactly when the filter keeps its pair. */
  lemma {:induction false} LookupFiltered(ps: seq<Param>, keep: Param -> bool, key: string)
    requires DistinctKeys(ps)
    ensures Lookup(Filter(ps, keep), key) ==
      var o := Lookup(ps, key);
      if o.Some? && keep(Param(key, o.value)) then o else None
  {
    if ps != [] {
      var p := ps[0];
      var rest := ps[1..];
      assert ps == [p] + rest;
      LookupFiltered(rest, keep, key);
      if keep(p) {
        assert Filter(ps, keep) == [p] + Filter(rest, keep);
        assert ([p] + Filter(rest, keep))[1..] == Filter(rest, keep);
      } else {
        assert Filter(ps, keep) == Filter(rest, keep);
      }
      if p.key == key {
        assert Lookup(rest, key).None? by {
          forall i | 0 <= i < |rest| ensures rest[i].key != key {
            assert rest[i] == ps[i + 1];
          }
        }
      }
    }
  }

  /** The listing parameters the server reads from a query string. */
  function Received(ps: seq<Param>): ListingParams {
    ListingParams(Lookup(ps, "q"), Lookup(ps, "skills"), Lookup(ps, "location"),
                  Lookup(ps, "jobType"), Lookup(ps, "experienceLevel"))
  }

  /** The value a filter leaves in a query string after `keep`. */
  function Kept(keep: Param -> bool, key: string, value: string): Option<string> {
    if keep(Param(key, value)) then Some(value) else None
  }

  /** What the server reads from the filter record's entries after `keep`:
      each filter's value when its pair was kept, nothing otherwise. */
  lemma ReceivedFiltered(f: Filters, keep: Param -> bool)
    ensures Received(Filter(Entries(f), keep)) ==
      ListingParams(Kept(keep, "q", f.q), Kept(keep, "skills", f.skills), Kept(keep, "location", f.location),
                    Kept(keep, "jobType", f.jobType), Kept(keep, "experienceLevel", f.experienceLevel))
  {
    EntriesDistinct(f);
    EntriesLookup(f);
    KeptLookup(f, keep, "q", f.q);
    KeptLookup(f, keep, "skills", f.skills);
    KeptLookup(f, keep, "location", f.location);
    KeptLookup(f, keep, "jobType", f.jobType);
    KeptLookup(f, keep, "experienceLevel", f.experienceLevel);
  }

  lemma KeptLookup(f: Filters, keep: Param -> bool, key: string, value: string)
    requires DistinctKeys(Entries(f)) && Lookup(Entries(f), key) == Some(value)
    ensures Lookup(Filter(Entries(f), keep), key) == Kept(keep, key, value)
  {
    LookupFiltered(Entries(f), keep, key);
  }

  lemma EntriesDistinct(f: Filters)
    ensures DistinctKeys(Entries(f))
  {
    var keys := ["q", "skills", "location", "jobType", "experienceLevel"];
    assert forall i :: 0 <= i < 5 ==> Entries(f)[i].key == keys[i];
    assert keys[0][0] == 'q' && keys[1][0] == 's' && keys[2][0] == 'l' && keys[3][0] == 'j' && keys[4][0] == 'e';
  }

  /** Each filter's key finds its value among the entries. */
  lemma EntriesLookup(f: Filters)
    ensures Lookup(Entries(f), "q") == Some(f.q)
    ensures Lookup(Entries(f), "skills") == Some(f.skills)
    ensures Lookup(Entries(f), "location") == Some(f.location)
    ensures Lookup(Entries(f), "jobType") == Some(f.jobType)
    ensures Lookup(Entries(f), "experienceLevel") == Some(f.experienceLevel)
  {
    var e := Entries(f);
    EntriesDistinct(f);
    LookupAt(e, 0, "q");
    LookupAt(e, 1, "skills");
    LookupAt(e, 2, "location");
    LookupAt(e, 3, "jobType");
    LookupAt(e, 4, "experienceLevel");
  }

  /** The first pair with a key gives that key's value. */
  lemma {:induction false} LookupAt(ps: seq<Param>, i: nat, key: string)
    requires i < |ps| && ps[i].key == key
    requires forall j :: 0 <= j < i ==> ps[j].key != key
    ensures Lookup(ps, key) == Some(ps[i].value)
  {
    if i > 0 {
      LookupAt(ps[1..], i - 1, key);
    }
  }

  /** The listing parameters the server would read if every filter were
      sent as it stands. */
  function Direct(f: Filters): ListingParams {
    ListingParams(Some(f.q), Some(f.skills), Some(f.location), Some(f.jobType), Some(f.experienceLevel))
  }

  /** As the page is written, dropping the empty and `all` filters leaves
      the server's filter object unchanged as long as neither free-text
      field holds the word `all`. */
  lemma SentParamsKeepServerFilter(f: Filters)
    requires f.q != "all" && f.skills != "all"
    ensures ListingQuery(Received(SentParams(f))) == ListingQuery(Direct(f))
  {
    ReceivedFiltered(f, Sends());
  }

  /** Searching for the word `all` sends no search at all: the server
      builds no text condition and lists every active job, where it would
      have matched `all` against title, description and company. */
  lemma SearchForAllIsDropped()
    ensures var f := InitialFilters.(q := "all");
            && ListingQuery(Received(SentParams(f))).text == None
            && ListingQuery(Direct(f)).text == Some("all")
  {
    ReceivedFiltered(InitialFilters.(q := "all"), Sends());
  }

  /** The keys for which `all` is the "no constraint" choice, both on this
      page's selects and in the server's listing handler. */
  predicate SentinelKey(key: string) {
    key == "location" || key == "jobType" || key == "experienceLevel"
  }

  function SendsIntended(): Param -> bool {
    (p: Param) => p.value != "" && !(p.value == "all" && SentinelKey(p.key))
  }

  /** The query string with `all` dropped only where it is a sentinel. */
  function IntendedParams(f: Filters): seq<Param> {
    Filter(Entries(f), SendsIntended())
  }

  /** Dropping only empty values and sentinel `all`s never changes the
      server's filter object, whatever the filters hold. */
  lemma IntendedParamsKeepServerFilter(f: Filters)
    ensures ListingQuery(Received(IntendedParams(f))) == ListingQuery(Direct(f))
  {
    ReceivedFiltered(f, SendsIntended());
    IntendedKeepsEachFilter(f);
  }

  /** Filter by filter, what the intended test keeps gives the server the
      same filter object as the whole record. */
  lemma IntendedKeepsEachFilter(f: Filters)
    ensures var keep := SendsIntended();
      ListingQuery(ListingParams(Kept(keep, "q", f.q), Kept(keep, "skills", f.skills), Kept(keep, "location", f.location),
                                 Kept(keep, "jobType", f.jobType), Kept(keep, "experienceLevel", f.experienceLevel)))
      == ListingQuery(Direct(f))
  {
    assert !SentinelKey("q") && !SentinelKey("skills") by {
      assert |"q"| == 1 && |"skills"| == 6;
    }
  }

  // ---------------------------------------------------------------------
  // Display rules

  const DescriptionPreview := 200
  const ChipLimit := 4

  /** The description shown on a job card: when `length` (UTF-16 code
      units) exceeds 200, the text that `substring(0, 200)` keeps and an
      ellipsis; the whole text otherwise. The kept text is a prefix of the
      description of 200 code units, or 199 when the 200th unit would split
      a surrogate pair. */
  function Truncate(d: string): (r: string)
    ensures Utf16Length(d) <= DescriptionPreview ==> r == d
    ensures Utf16Length(d) > DescriptionPreview ==>
      && |r| >= 3 && r[|r| - 3..] == "..."
      && |r| - 3 < |d| && r[..|r| - 3] == d[..|r| - 3]
      && DescriptionPreview - 1 <= Utf16Length(r[..|r| - 3]) <= DescriptionPreview
  {
    if Utf16Length(d) > DescriptionPreview then
      var p := Utf16Prefix(d, DescriptionPreview);
      assert (p + "...")[..|p|] == p;
      p + "..."
    else d
  }

  /** On text within the Basic Multilingual Plane the card shows exactly
      the first 200 characters and the ellipsis. */
  lemma TruncateBmp(d: string)
    requires forall k :: 0 <= k < |d| ==> d[k] as int <= 0xFFFF
    requires |d| > DescriptionPreview
    ensures Truncate(d) == d[..DescriptionPreview] + "..."
  {
    Utf16LengthBmp(d);
    var p := Utf16Prefix(d, DescriptionPreview);
    Utf16LengthBmp(p);
  }

  /** The skill chips of a job card and the `+N more` counter, if shown. */
  datatype Chips = Chips(shown: seq<string>, more: Option<nat>)

  function SkillChips(skills: seq<string>): (r: Chips)
    ensures |r.shown| <= ChipLimit && |r.shown| <= |skills| && r.shown == skills[..|r.shown|]
    ensures r.more.Some? <==> |skills| > ChipLimit
    ensures |r.shown| + (if r.more.Some? then r.more.value else 0) == |skills|
    ensures |r.shown| == if |skills| > ChipLimit then ChipLimit else |skills|
    ensures r.more.Some? ==> r.more.value == |skills| - ChipLimit
  {
    if |skills| > ChipLimit then Chips(skills[..ChipLimit], Some(|skills| - ChipLimit))
    else Chips(skills, None)
  }
}
