# Job portal: a Dafny model of the API handlers, schemas and client pages

The portal has a Node/Express API over MongoDB and a React client. Users
post jobs and apply to them. They write feed posts, like and comment on
them, keep a profile and connect a wallet address to an account. This
project models the core of that system in Dafny:

- **Schemas** (`job_model.dfy`, `post_model.dfy`, `user_model.dfy`). These
  hold the three documents as datatypes, with their enumerations, defaults
  and length limits. They also hold the `trim`/`lowercase` setters, the
  user's pre-save hook that hashes a modified password, `comparePassword`,
  and `toJSON`, which drops the password.
- **Route handlers** (`job_routes.dfy`, `post_routes.dfy`, `user_routes.dfy`).
  Each collection is a class holding a sequence of documents, newest first.
  Each handler is a method proved against a pure step function on that
  sequence, which returns the new collection and the reply (status,
  message, body). Lemmas state what each handler promises:
  - the 400/404/500 paths and that they change nothing;
  - which document and which field changes;
  - the invariants each collection keeps: distinct ids, one application
    and one like per user, unique normalised e-mail addresses.
- **Shared pieces**:
  - `common.dfy`: JavaScript truthiness, replies, first-match search, filtering.
  - `text.dfy`: `String.prototype.trim`, ASCII lower-casing, `split`/`join`, and
    `length` counted in UTF-16 code units, which is what the schemas' length
    limits and the pages' length checks measure.
  - `pagination.dfy`: `skip`/`limit` and the `pagination` object.
- **Client pages** (`post_job_page.dfy`, `jobs_page.dfy`, `dashboard_page.dfy`,
  `register_page.dfy`). These cover:
  - what each form sends, and how it lines up with what the server accepts;
  - the filter state of the jobs page and the query string it builds;
  - the optimistic like toggle and the statistics of the dashboard;
  - the checks of the registration form, in their order.

Environment facts become parameters:
- the signed-in user's id;
- the current time;
- the new document's id;
- the password hash function.

## Model

| member | source | states |
|---|---|---|
| Common.ParseExperience | server/models/User.js:53-57 | a level name is accepted exactly when it is one of the six enumerated names, and then it names the parsed level |
| Common.ExperienceRoundTrip | server/models/JobPost.js:44-48 | every experience level parses back from its name |
| Common.FirstIndex | server/routes/jobs.js:149-151 | `find`: the first index whose element satisfies the test, none earlier does; none when no element does |
| Common.FilterCount | src/pages/Dashboard.tsx:139 | `filter(...).length` is the number of elements that pass the test, counted independently |
| Text.Trim | server/models/JobPost.js:4-8 | the trimmed string has no white space at either end, and is empty exactly when the input is blank |
| Text.TrimIdempotent | server/models/JobPost.js:13-16 | trimming a trimmed value changes nothing |
| Text.TrimToLowerCommute | server/models/User.js:16-22 | lower-casing and trimming commute, so the order of the e-mail setters does not matter |
| Text.SplitJoin | server/routes/jobs.js:25 | splitting a comma-joined list of separator-free pieces gives the pieces back |
| Text.JoinSplit | server/routes/jobs.js:25 | joining the pieces of a split with the separator gives the original string |
| Text.Split | server/routes/jobs.js:25 | `split(',')` yields at least one piece and no piece contains the separator |
| Text.ContainsIgnoreCase | server/routes/jobs.js:17-19 | an empty pattern matches every value, and a match is never longer than the value |
| Text.Utf16Length | server/models/UserPost.js:7 | `length`, as `maxlength` and `minlength` measure it, is between the number of characters and twice that |
| Text.Utf16LengthBmp | server/models/UserPost.js:7 | within the Basic Multilingual Plane `length` is the number of characters |
| Text.AstralCharacterCountsTwice | server/models/UserPost.js:7 | an emoji is one character and two code units |
| Text.Utf16Prefix | src/pages/Jobs.tsx:291 | the longest prefix within `n` code units: a prefix, within the bound, and one more character would exceed it |
| Text.TrimEach | server/routes/users.js:87 | `map(s => s.trim())`: same length, every entry the trimmed original |
| Pagination.Skip | server/routes/jobs.js:44 | the skip count plus one page is `page * limit` |
| Pagination.OrDefault | server/routes/jobs.js:10 | an absent parameter takes its default and a present one is used as given |
| Pagination.CeilDiv | server/routes/jobs.js:57 | `Math.ceil(n / d)`: the least page count whose pages hold all `n` documents |
| Pagination.Envelope | server/routes/jobs.js:54-61 | the reported page is the requested one, `hasPrev` iff it is at least 2, and the page count covers every document |
| Pagination.Window | server/routes/jobs.js:46-50 | `skip`/`limit`: at most `limit` items, the items starting at `skip`, none when `skip` is past the end |
| Pagination.EnvelopeMeaning | server/routes/jobs.js:54-61 | `total` is the ceiling of matches over limit; `hasNext` iff matches remain after this page; `hasPrev` iff page is at least 2 |
| Pagination.HasNextIffBeforeLastPage | server/routes/posts.js:23-30 | `hasNext` holds exactly when the page is before the last page |
| Pagination.FullPageBeforeNext | server/routes/posts.js:11-28 | a page that reports a next page is full |
| Pagination.ThirdOfTwentyFive | server/routes/jobs.js:44-61 | 25 matches at 10 per page: page 3 skips 20, shows 5, 3 pages, no next, a previous |
| Pagination.DefaultsShowFirstTen | server/routes/posts.js:10-30 | without `page` and `limit`: the first ten matches (all when fewer), page 1, no previous page, a next page iff more than ten match |
| JobModel.ParseJobType | server/models/JobPost.js:31-35 | a job type is accepted exactly when it is one of the five names |
| JobModel.JobTypeRoundTrip | server/models/JobPost.js:31-35 | every job type parses back from its name |
| PostModel.ParsePostType | server/models/UserPost.js:14-18 | a post type is accepted exactly when it is one of the five names |
| PostModel.PostTypeRoundTrip | server/models/UserPost.js:14-18 | every post type parses back from its name |
| JobRoutes.BuildListingQuery | server/routes/jobs.js:12-42 | the key-by-key build yields the listing's filter object, whose status condition is always active (its meaning is `ListingMatchIff`) |
| JobRoutes.Matching | server/routes/jobs.js:46 | `find(query)`: every listed posting is stored and matches; every stored matching posting is listed |
| JobRoutes.ListingMatchIff | server/routes/jobs.js:12-42 | a posting matches iff it is active, `q` occurs in title, description or company ignoring case, it shares a skill with the trimmed comma list, its location contains `location` ignoring case, and type and level are equal |
| JobRoutes.ListingShowsOnlyActive | server/routes/jobs.js:12 | closed and draft postings are never listed |
| JobRoutes.UnfilteredListingIsAllActive | server/routes/jobs.js:12-42 | without constraining parameters the listing is exactly the active postings in store order |
| JobRoutes.NarrowingNeverEnlarges | server/routes/jobs.js:15-42 | adding a filter lists a subset of what the wider filters list, and no more postings |
| JobRoutes.PrepareJob | server/routes/jobs.js:104-124 | 400 "Required fields are missing", then 400 "Budget range is required", then 500 on a schema rejection; 201 exactly when all pass, with the defaults, trimmed lists, no applicants, active |
| JobRoutes.IndexOf | server/routes/jobs.js:142 | `findById`: the position of the posting with that id, none iff no posting has it |
| JobRoutes.ApplyStep | server/routes/jobs.js:140-169 | the reply is 200, 400 or 404; only a 200 changes the collection, never its length |
| JobRoutes.ApplyChangesOneList | server/routes/jobs.js:142-164 | 404 iff no posting has the id; 400 "Already applied to this job" iff the posting is found and the caller has applied; 200 iff found and not applied, and then exactly one pending application by the caller is appended to that posting and nothing else changes; on 404 and 400 nothing changes |
| JobRoutes.ApplyKeepsOnePerUser | server/routes/jobs.js:148-155 | at most one application per user on every posting is preserved |
| JobRoutes.ApplyTwiceConflicts | server/routes/jobs.js:153-155 | after a successful application a second one is 400 "Already applied to this job" and changes nothing |
| JobRoutes.IndexStable | server/routes/jobs.js:142 | replacing a posting by one with the same id keeps every id lookup |
| JobRoutes.PostedBy | server/routes/jobs.js:174 | exactly the stored postings whose poster is the user |
| JobRoutes.JobBoard.constructor | server/models/JobPost.js:3-83 | an empty collection that satisfies the invariant |
| JobRoutes.JobBoard.List | server/routes/jobs.js:8-62 | the page of the matching postings at `skip`, at most `limit`, all active, with the pagination object for the match count; an absent `page` is 1 and an absent `limit` is 10, so a bare request shows page 1 with at most ten postings and no previous page |
| JobRoutes.JobBoard.Get | server/routes/jobs.js:70-80 | 404 "Job not found" iff no posting has the id; otherwise 200 carrying the first stored posting with that id |
| JobRoutes.JobBoard.Create | server/routes/jobs.js:88-132 | the reply is the create decision; on 201 the new posting is put in front; the invariant is kept |
| JobRoutes.JobBoard.Apply | server/routes/jobs.js:140-169 | the collection and reply are those of the apply step; the invariant is kept |
| JobRoutes.JobBoard.Posted | server/routes/jobs.js:172-178 | the caller's own postings, newest first |
| PostRoutes.PreparePost | server/routes/posts.js:41-53 | 400 "Content is required" iff content is missing or blank; 201 iff additionally the trimmed content is at most 1000 UTF-16 code units and the post type is known, with the trimmed content, default type and image, no likes or comments |
| PostRoutes.ToggleMeaning | server/routes/posts.js:77-92 | after a toggle the user has liked iff they had not; other users' likes are untouched; a new like is appended last |
| PostRoutes.Toggle | server/routes/posts.js:77-92 | an unlike leaves no like by the user and shortens the list; a like appends exactly one like by the user |
| PostRoutes.ToggleTwiceRestores | server/routes/posts.js:77-92 | on a post the user has not liked, liking then unliking gives back the exact list |
| PostRoutes.ToggleKeepsOneLikePerUser | server/routes/posts.js:77-92 | at most one like per user is preserved |
| PostRoutes.UnlikeRemovesOne | server/routes/posts.js:83-85 | removing the user's likes removes exactly one when there was exactly one |
| PostRoutes.HasLike | server/routes/posts.js:77-79 | true iff some like belongs to the user |
| PostRoutes.RemoveLikesBy | server/routes/posts.js:83-85 | the likes of other users, in order; none of the user's remain |
| PostRoutes.LikeStep | server/routes/posts.js:69-99 | the reply is 200 with a count or 404 with no change; the collection keeps its length |
| PostRoutes.LikeReply | server/routes/posts.js:71-99 | 404 iff the id is unknown and then nothing changes; 200 iff it is known, and then that post's likes become the toggle of its old likes and nothing else changes; the message names the branch and the count is one more or one fewer |
| PostRoutes.CommentStep | server/routes/posts.js:107-133 | the reply is 200, 400, 404 or 500; a failure changes nothing and carries no comment; a 200 carries a comment the schema accepts |
| PostRoutes.CommentAppends | server/routes/posts.js:109-132 | 400 iff the content is blank, before the lookup; 404 iff it is not blank and the id is unknown; 500 iff the post exists and the trimmed content exceeds 500 UTF-16 code units; 200 otherwise, and then the trimmed comment by the caller is appended to that post only and returned; any failure changes nothing |
| PostRoutes.ByAuthor | server/routes/posts.js:143 | exactly the stored posts by that author |
| PostRoutes.PostFeed.constructor | server/models/UserPost.js:3-54 | an empty feed that satisfies the invariant |
| PostRoutes.PostFeed.Feed | server/routes/posts.js:8-31 | the page of posts at `skip`, at most `limit`, with the pagination object; an absent `page` is 1 and an absent `limit` is 10 |
| PostRoutes.PostFeed.Create | server/routes/posts.js:39-61 | the reply is the create decision; on 201 the new post is put in front; the invariant is kept |
| PostRoutes.PostFeed.ToggleLike | server/routes/posts.js:69-99 | the posts and reply are those of the like step; the invariant is kept |
| PostRoutes.PostFeed.AddComment | server/routes/posts.js:107-133 | the posts and reply are those of the comment step; the invariant is kept |
| PostRoutes.PostFeed.OfAuthor | server/routes/posts.js:141-149 | the posts by that author, newest first |
| UserModel.ToJSON | server/models/User.js:81-85 | the public form plus the stored password gives the user back: only the password is dropped |
| UserModel.ToJSONForgetsOnlyPassword | server/models/User.js:81-85 | two users have the same public form iff they differ at most in the password |
| UserModel.NormalizeEmail | server/models/User.js:16-22 | the stored address is trimmed and has no capital letter, and equals the trimmed, lower-cased input |
| UserModel.NormalEmailFixed | server/models/User.js:20-21 | a stored address normalises to itself |
| UserModel.EmailsCollide | server/models/User.js:16-22 | addresses that differ only in letter case and surrounding white space are stored as the same address |
| UserModel.Setters | server/models/User.js:4-40 | after the setters the e-mail is normalised, the name and every skill trimmed, and no other path differs from the input |
| UserModel.SettersIdempotent | server/models/User.js:5-22 | values that went through the setters are left unchanged by them |
| UserModel.SaveValidAfterSetters | server/models/User.js:4-32 | a new document validates iff name and e-mail are not blank before trimming and password and bio lengths are within limits: padding is trimmed away, an e-mail of white space is refused |
| UserModel.ComparePassword | server/models/User.js:76-78 | the comparison fails (bcrypt rejects its arguments) exactly when no password is stored; a match means the candidate hashes to the stored value |
| UserModel.ComparePasswordIff | server/models/User.js:76-78 | with an injective hash the comparison never fails on a saved password and matches only the password hashed on save |
| UserModel.UserDocument.constructor | server/models/User.js:4-60 | a new document holds the values after the setters (name and skills trimmed, e-mail trimmed and lower-cased) and its every path counts as modified |
| UserModel.UserDocument.SetPassword | server/models/User.js:23-27 | the password is replaced and marked modified, nothing else changes |
| UserModel.UserDocument.PreSave | server/models/User.js:63-73 | the password is replaced by its hash iff it was modified; otherwise the document is unchanged |
| UserModel.UserDocument.Save | server/models/User.js:4-73 | succeeds iff the set name and e-mail are non-empty, the password has at least 6 and the bio at most 500 UTF-16 code units; then hashes a modified password and clears the modified flag; a failure changes nothing |
| UserRoutes.IndexOf | server/routes/users.js:10 | `findById`: the position of the user with that id, none iff no user has it |
| UserRoutes.IndexOfEmail | server/routes/users.js:60-61 | `findOne({ email })`: the position of the user with that address, none iff no user has it |
| UserRoutes.Profile | server/routes/users.js:10-14 | 404 "User not found" iff no user has the id; otherwise 200 with that user's public form |
| UserRoutes.BuildUpdate | server/routes/users.js:24-33 | the update holds name, skills and experience only when truthy and the other four whenever present |
| UserRoutes.UpdateRejects | server/routes/users.js:35-39 | 500 iff a blank name, a bio over 500 UTF-16 code units or an unknown level is sent, and then nothing changes; otherwise 200 |
| UserRoutes.UpdateStep | server/routes/users.js:22-49 | the reply is 200 or 500; a 500 changes nothing; an unknown caller gets no user and nothing changes; a returned user is the caller's stored document in public form |
| UserRoutes.UpdateFieldByField | server/routes/users.js:24-44 | an accepted update changes only the caller's document, field by field as sent, with name and skills trimmed, never e-mail, password or image, and replies with the new public form |
| UserRoutes.UpdateEmptyBody | server/routes/users.js:26-33 | a body with no recognised field changes nothing |
| UserRoutes.UpdateKeepsValid | server/routes/users.js:35-39 | an update keeps the collection invariant |
| UserRoutes.ConnectWalletRequired | server/routes/users.js:56-58 | 400 iff the address or the wallet address is missing or empty, and then nothing changes; otherwise 200 with a user |
| UserRoutes.ConnectWalletStep | server/routes/users.js:52-71 | 200 iff both fields are given, and then the returned user has the normalised e-mail and the new wallet address; 400 changes nothing |
| UserRoutes.ConnectWalletUpdates | server/routes/users.js:60-66 | when a user has the normalised address, exactly that user gets the wallet address and is returned |
| UserRoutes.ConnectWalletInserts | server/routes/users.js:60-66 | otherwise a user with the normalised address, the wallet address, the defaults and no name or password is inserted in front and returned |
| UserRoutes.InsertedUserCannotCompare | server/models/User.js:76-78 | a user created by the upsert has no password, so comparing a password with it fails |
| UserRoutes.ConnectWalletKeepsValid | server/routes/users.js:60-64 | connecting a wallet keeps distinct ids and unique addresses |
| UserRoutes.BuildSearchQuery | server/routes/users.js:76-89 | the key-by-key build yields the search's filter object (its meaning is `SearchMatchIff`) |
| UserRoutes.MatchingUsers | server/routes/users.js:91 | every returned user is stored and matches; every stored matching user is returned |
| UserRoutes.Publics | server/routes/users.js:92 | `select('-password')`: each user's public form, in order |
| UserRoutes.SearchMatchIff | server/routes/users.js:79-89 | a user matches iff `q` occurs in name or bio ignoring case and the skills intersect the trimmed comma list |
| UserRoutes.Search | server/routes/users.js:91-96 | at most 20 users, and never more than are stored |
| UserRoutes.SearchMeaning | server/routes/users.js:91-96 | the result is the public forms of the first matches, all when at most 20, otherwise 20 |
| UserRoutes.UserDirectory.constructor | server/models/User.js:4-60 | an empty collection that satisfies the invariant |
| UserRoutes.UserDirectory.GetProfile | server/routes/users.js:8-19 | the reply is the profile decision |
| UserRoutes.UserDirectory.Update | server/routes/users.js:22-49 | the users and reply are those of the update step; the invariant is kept |
| UserRoutes.UserDirectory.ConnectWallet | server/routes/users.js:52-71 | the users and reply are those of the connect-wallet step; the invariant is kept |
| UserRoutes.UserDirectory.Find | server/routes/users.js:74-96 | the search result, at most 20 users |
| PostJobPage.ParseCsv | src/pages/PostJob.tsx:48-54 | no entries for an empty field; every entry non-empty, trimmed and free of commas |
| PostJobPage.ParseCsvMeaning | src/pages/PostJob.tsx:48-50 | the entries are the trimmed non-blank comma-separated pieces, in order, as many as there are |
| PostJobPage.CsvRoundTrip | src/pages/PostJob.tsx:48-54 | a non-empty list of trimmed, non-empty, comma-free entries survives joining with commas and parsing |
| PostJobPage.OptionsMatchSchema | src/pages/PostJob.tsx:82-97 | the two selects offer exactly the values the schema accepts; the initial choices and defaults agree with the schema |
| PostJobPage.JobPayload | src/pages/PostJob.tsx:56-71 | skills and tags are always sent, each as the parsed comma list, all entries non-empty; the required fields count as given iff the five form fields are non-empty; no deadline iff the field is empty |
| PostJobPage.SkillsAndTagsAlike | src/pages/PostJob.tsx:48-54 | skills and tags are parsed by the same rule |
| PostJobPage.InitialFormRefused | src/pages/PostJob.tsx:21-34 | the untouched form is refused with 400 "Required fields are missing" |
| PostJobPage.FilledFormAccepted | src/pages/PostJob.tsx:56-71 | a filled form with non-zero budget figures is created, and the stored skills, tags and budget are what the form parsed |
| Text.TrimEachTrimmed | server/models/JobPost.js:13-16 | the schema's `trim` on list entries leaves a list of trimmed entries (such as a parsed skills or tags list) unchanged |
| JobsPage.HandleFilterChange | src/pages/Jobs.tsx:76-81 | the changed filter holds the new value and every other filter is unchanged |
| JobsPage.ClearFilters | src/pages/Jobs.tsx:83-91 | every filter is back at its initial value |
| JobsPage.QueryParams | src/pages/Jobs.tsx:59-65 | the loop builds the filtered entries, and no sent value is empty or `all` |
| JobsPage.SentParamsInOrder | src/pages/Jobs.tsx:59-65 | the query string holds exactly the non-empty, non-`all` filters in declaration order |
| JobsPage.InitialSendsNothing | src/pages/Jobs.tsx:43-49 | the initial and the cleared filters send no parameter |
| JobsPage.Lookup | src/pages/Jobs.tsx:67 | reading a parameter gives none iff no pair has the key, otherwise the value of a pair with that key |
| JobsPage.SentParamsKeepServerFilter | src/pages/Jobs.tsx:59-65 | unless the search or skills field is `all`, the server builds the same filter object as if every filter were sent |
| JobsPage.SearchForAllIsDropped | src/pages/Jobs.tsx:62 | searching for `all` sends no search and the server builds no text condition, where it would have matched `all` |
| JobsPage.IntendedParamsKeepServerFilter | server/routes/jobs.js:30-41 | dropping `all` only for the three select filters never changes the server's filter object |
| JobsPage.Truncate | src/pages/Jobs.tsx:290-293 | a description of at most 200 UTF-16 code units is shown whole; a longer one as a prefix of 199 or 200 code units followed by "..." |
| JobsPage.TruncateBmp | src/pages/Jobs.tsx:290-293 | on text within the Basic Multilingual Plane a long description shows exactly its first 200 characters and "..." |
| JobsPage.SkillChips | src/pages/Jobs.tsx:315-327 | the first min(4, n) skills are shown, and a "+N more" with N = n - 4 appears iff there are more than four |
| DashboardPage.FeedLikes | server/routes/posts.js:16 | the populated likes name the same users as the stored likes |
| DashboardPage.OnPost | src/pages/Dashboard.tsx:95-106 | only the posts with the liked id change |
| DashboardPage.UnlikeAfterReloadShowsTwoLikes | src/pages/Dashboard.tsx:97-102 | a stored like by the user, loaded populated, is not recognised: the server removes it but the page shows two |
| DashboardPage.ToggleAsWritten | src/pages/Dashboard.tsx:97-102 | as-written half of the like-toggle finding: a populated like is never removed, so on likes as the feed loaded them the toggle always appends |
| DashboardPage.OptimisticLikeAsWritten | src/pages/Dashboard.tsx:95-106 | as written: only the liked post changes, by the strict-equality toggle |
| DashboardPage.OptimisticLike | src/pages/Dashboard.tsx:95-106 | corrected half of the like-toggle finding: only the liked post changes, and its likes are toggled by comparing user ids |
| DashboardPage.ToggleMirrorsServer | src/pages/Dashboard.tsx:97-102 | when the page names the same likers as the server, the id toggle keeps it naming the same likers after the request |
| DashboardPage.CreatePostRequest | src/pages/Dashboard.tsx:70-79 | a request is sent with the typed text and chosen type, and only then |
| DashboardPage.AfterCreate | src/pages/Dashboard.tsx:80-83 | after a created post the list is that post followed by the old list, the text is empty and the type is back to `update`; otherwise list and composer are unchanged |
| DashboardPage.ComposerGuardMatchesServer | src/pages/Dashboard.tsx:72 | the page sends exactly the content the server does not refuse as blank |
| DashboardPage.TotalApplicationsAppend | src/pages/Dashboard.tsx:138 | the application total of two lists is the sum of their totals |
| DashboardPage.TotalApplicationsCounts | src/pages/Dashboard.tsx:138 | a posting put in front adds its applicant count to the total |
| DashboardPage.ApplicantsOf | src/pages/Dashboard.tsx:138 | reference count over the whole store: every applicant of a posting by the user is counted, so each such posting's applicants are at most the count |
| DashboardPage.TotalOfPostedBy | src/pages/Dashboard.tsx:138 | the reduce over the user's postings, as the server lists them, equals that reference count |
| DashboardPage.TotalApplications | src/pages/Dashboard.tsx:138 | every posting's applicant count is part of the total |
| DashboardPage.DashboardStats | src/pages/Dashboard.tsx:136-139 | "Jobs Posted" is the number of the user's postings, "Total Applications" their applicant sum, "Posts Created" the count of loaded posts by the user; every posting's applicants are part of the total |
| DashboardPage.StatsMeaning | src/pages/Dashboard.tsx:136-139 | "Jobs Posted" is the count of stored postings whose poster is the user; "Total Applications" counts once every applicant of those postings (`ApplicantsOf`); "Posts Created" is the count of loaded posts whose author is the user: all of them when all are the user's, zero when none is |
| DashboardPage.IconFor | src/pages/Dashboard.tsx:121-134 | the default icon iff the type is none of the four named ones |
| DashboardPage.IconsOfPostTypes | src/pages/Dashboard.tsx:121-134 | among the schema's types only `update` gets the default icon, and the others get distinct icons |
| DashboardPage.RecentJobs | src/pages/Dashboard.tsx:305 | the first three postings, or all when fewer |
| RegisterPage.HandleSubmit | src/pages/Register.tsx:28-51 | `register` is called iff the passwords match and have at least six UTF-16 code units, with name, e-mail and password; a mismatch is reported before a short password |
| RegisterPage.MismatchReportedFirst | src/pages/Register.tsx:32-40 | a mismatch is reported even when the password is also short |
| RegisterPage.ThreeEmojiPasswordAccepted | src/pages/Register.tsx:37 | a password of three emoji is six code units long and passes the length check |
| RegisterPage.LengthCheckMatchesSchema | server/models/User.js:23-27 | the page's minimum is the schema's, so the page calls `register` exactly for matching passwords the schema accepts |

## Left out

- Database machinery is not modelled: `populate` (except as the shape of liked users on the dashboard), ObjectId casting and the timestamps. The creation order stands in for `sort({ createdAt: -1 })`: each collection is kept newest first.
- Regular-expression metacharacters in `q`, `location` and the search text are not modelled. The model reads them as a literal, case-insensitive substring test (`ContainsIgnoreCase`).
- Letter case is folded for ASCII letters only. Unicode case folding of the `lowercase` setter and of the `i` regex option is not modelled. `trim` does remove the full ECMAScript white-space set.
- `parseInt` on `page` and `limit` is not modelled. An absent parameter takes its default (1 and 10); a given one is an integer of at least 1. A zero or negative page or limit is excluded, and a non-numeric one is not represented.
- Truncate: when the 200th UTF-16 code unit of a description is the first half of a surrogate pair, `substring(0, 200)` keeps a lone surrogate, which a Dafny string cannot hold; the model ends the excerpt one character earlier, at 199 code units.
- `Date` and `toISOString` are not modelled. The deadline string passes through unchanged, and timestamps are integer parameters.
- bcrypt becomes a hash-function parameter. Salt randomness is not modelled; `ComparePasswordIff` requires the hash to be injective.
- The JWT `auth` middleware is not part of this model. The caller's id is a parameter of every protected handler.
- Concurrency between requests is not modelled. Each handler runs as one atomic step.
- `walletAddress` has no `unique` index in the model. The schema declares the key twice (User.js:10-15 and 41-44), so the later, plain declaration is the one used.
- The register and login routes and the auth middleware are not part of this model. The register page is modelled only up to its `register` call.
- Rendering and `handleChange` are not modelled, nor are the date/salary formatting helpers and the constant "Profile Views" tile.
- The dashboard's "Posts Created" counts only the posts the page loaded (at most 10), as the source does.
- The comment handler's 500 path is modelled as the schema's comment length limit. Other save failures, such as a lost connection, are not represented.

## Findings

| source | as written | input that shows it | evidently intended | confidence | as-written member | corrected member |
|---|---|---|---|---|---|---|
| src/pages/Dashboard.tsx:97-101 | the optimistic toggle compares `like.user === user?.id`, but the feed populates `likes.user` into user objects (server/routes/posts.js:16), so a like loaded with the feed is never recognised as the user's | the user liked post P before loading the dashboard; clicking like again removes the like on the server while the page appends a second one | compare the like's user id (`like.user._id ?? like.user`) with the signed-in user's id | medium, not executed | DashboardPage.UnlikeAfterReloadShowsTwoLikes | DashboardPage.ToggleMirrorsServer |
| src/pages/Jobs.tsx:62 | every filter whose value is `all` is dropped, including the free-text search and skills fields | typing `all` in the search box lists every active job; the server would match `all` against title, description and company (server/routes/jobs.js:15-21) | drop `all` only for location, job type and experience level, the filters where the server treats it as "no constraint" (server/routes/jobs.js:30-41) | medium, not executed | JobsPage.SearchForAllIsDropped | JobsPage.IntendedParamsKeepServerFilter |
