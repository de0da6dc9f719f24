/** The dashboard page of the client: the optimistic update of a post's
    likes after the like request, the post composer with its guard and its
    reset, the statistics tiles, the post-type icons and the short list of
    the user's recent jobs. */
module DashboardPage {
  import opened Common
  import opened Text
  import opened JobModel
  import opened JobRoutes
  import opened PostModel
  import opened PostRoutes

  // ---------------------------------------------------------------------
  // Posts as the page holds them

  /** The `user` of a like as the page holds it: the id string of a like the
      page appended itself, or the user object that the feed's `populate`
      put in place of the id. */
  datatype LikeUser = IdRef(id: Id) | PopulatedUser(id: Id, name: string, email: string)

  /** A post of the feed as the page holds it. */
  datatype ClientPost = ClientPost(id: Id, content: string, authorId: Id, postType: string, likes: seq<LikeUser>)

  /** The user ids behind a list of likes, as the page holds them. */
  function LikerIds(likes: seq<LikeUser>): (r: seq<Id>)
    ensures |r| == |likes| && forall k :: 0 <= k < |likes| ==> r[k] == likes[k].id
  {
    seq(|likes|, k requires 0 <= k < |likes| => likes[k].id)
  }

  /** The user ids behind a list of likes, as the server stores them. */
  function ServerLikerIds(likes: seq<Like>): (r: seq<Id>)
    ensures |r| == |likes| && forall k :: 0 <= k < |likes| ==> r[k] == likes[k].user
  {
    seq(|likes|, k requires 0 <= k < |likes| => likes[k].user)
  }

  /** The likes of a post as the feed returns them: every `user` populated. */
  function FeedLikes(likes: seq<Like>, name: Id -> string, email: Id -> string): (r: seq<LikeUser>)
    ensures LikerIds(r) == ServerLikerIds(likes)
  {
    seq(|likes|, k requires 0 <= k < |likes| => PopulatedUser(likes[k].user, name(likes[k].user), email(likes[k].user)))
  }

  /** `prev.map(...)`: `toggle` applied to the likes of the posts with id
      `postId`, every other post left as it was. */
  function OnPost(posts: seq<ClientPost>, postId: Id, toggle: seq<LikeUser> -> seq<LikeUser>): (r: seq<ClientPost>)
    ensures |r| == |posts|
    ensures forall k :: 0 <= k < |posts| && posts[k].id != postId ==> r[k] == posts[k]
    ensures forall k :: 0 <= k < |posts| && posts[k].id == postId ==> r[k] == posts[k].(likes := toggle(posts[k].likes))
  {
    seq(|posts|, k requires 0 <= k < |posts| =>
      if posts[k].id == postId then posts[k].(likes := toggle(posts[k].likes)) else posts[k])
  }

  // ---------------------------------------------------------------------
  // The optimistic like, as written

  /** `like.user === user?.id`: a user object is never strictly equal to a
      string, so only an id the page appended itself can match. */
  predicate StrictlyIs(u: LikeUser, me: Id) {
    u.IdRef? && u.id == me
  }

  function NotStrictly(me: Id): LikeUser -> bool {
    (u: LikeUser) => !StrictlyIs(u, me)
  }

  /** The page's toggle as written: drop the likes strictly equal to the
      user if there is one, else append the user's id. A populated like is
      never dropped, so on likes as the feed loaded them the toggle always
      appends. */
  function ToggleAsWritten(likes: seq<LikeUser>, me: Id): (r: seq<LikeUser>)
    ensures forall k :: 0 <= k < |likes| && likes[k].PopulatedUser? ==> likes[k] in r
    ensures (forall k :: 0 <= k < |likes| ==> likes[k].PopulatedUser?) ==> r == likes + [IdRef(me)]
  {
    FilterMembers(likes, NotStrictly(me));
    if exists k :: 0 <= k < |likes| && StrictlyIs(likes[k], me) then Filter(likes, NotStrictly(me))
    else likes + [IdRef(me)]
  }

  /** The optimistic update as written: only the post with the liked id
      changes, by the strict-equality toggle. */
  function OptimisticLikeAsWritten(posts: seq<ClientPost>, postId: Id, me: Id): (r: seq<ClientPost>)
    ensures |r| == |posts|
    ensures forall k :: 0 <= k < |posts| && posts[k].id != postId ==> r[k] == posts[k]
    ensures forall k :: 0 <= k < |posts| && posts[k].id == postId ==>
      r[k].id == postId && r[k].likes == ToggleAsWritten(posts[k].likes, me)
  {
    OnPost(posts, postId, (l: seq<LikeUser>) => ToggleAsWritten(l, me))
  }

  /** A user who liked a post before the feed was loaded unlikes it: the
      server removes the like, but the page does not recognise the populated
      like as the user's and shows a second one. */
  lemma UnlikeAfterReloadShowsTwoLikes()
    ensures var stored := [Like("u1", 1)];
            var shown := FeedLikes(stored, (id: Id) => "Ann", (id: Id) => "ann@example.com");
            && ServerLikerIds(Toggle(stored, "u1", 2)) == []
            && LikerIds(ToggleAsWritten(shown, "u1")) == ["u1", "u1"]
  {
    var stored := [Like("u1", 1)];
    var shown := FeedLikes(stored, (id: Id) => "Ann", (id: Id) => "ann@example.com");
    assert stored[0].user == "u1";
    assert Liked(stored, "u1");
    assert Filter(stored, NotBy("u1")) == [] by {
      assert stored[1..] == [];
    }
    assert !StrictlyIs(shown[0], "u1");
  }

  // ---------------------------------------------------------------------
  // The optimistic like, corrected

  /** The like's user is the signed-in user, whether it holds an id or a
      populated user object. */
  function NotMine(me: Id): LikeUser -> bool {
    (u: LikeUser) => u.id != me
  }

  /** The toggle comparing ids: drop every like of the user if there is
      one, else append one. */
  function ToggleLikes(likes: seq<LikeUser>, me: Id): seq<LikeUser> {
    if exists k :: 0 <= k < |likes| && likes[k].id == me then Filter(likes, NotMine(me))
    else likes + [IdRef(me)]
  }

  /** The optimistic update: only the post with the liked id changes. */
  function OptimisticLike(posts: seq<ClientPost>, postId: Id, me: Id): (r: seq<ClientPost>)
    ensures |r| == |posts|
    ensures forall k :: 0 <= k < |posts| && posts[k].id != postId ==> r[k] == posts[k]
    ensures forall k :: 0 <= k < |posts| && posts[k].id == postId ==>
      r[k].id == postId && r[k].likes == ToggleLikes(posts[k].likes, me)
  {
    OnPost(posts, postId, (l: seq<LikeUser>) => ToggleLikes(l, me))
  }

  lemma {:induction false} FilterIdsAgree(view: seq<LikeUser>, stored: seq<Like>, me: Id)
    requires LikerIds(view) == ServerLikerIds(stored)
    ensures LikerIds(Filter(view, NotMine(me))) == ServerLikerIds(Filter(stored, NotBy(me)))
  {
    if view != [] {
      IdsOfTail(view, stored);
      FilterIdsAgree(view[1..], stored[1..], me);
      var a := if view[0].id != me then [view[0]] else [];
      var b := if stored[0].user != me then [stored[0]] else [];
      LikerIdsAppend(a, Filter(view[1..], NotMine(me)));
      ServerLikerIdsAppend(b, Filter(stored[1..], NotBy(me)));
    }
  }

  /** Lists naming the same likers agree on their heads and on their tails. */
  lemma IdsOfTail(view: seq<LikeUser>, stored: seq<Like>)
    requires view != [] && LikerIds(view) == ServerLikerIds(stored)
    ensures view[0].id == stored[0].user
    ensures LikerIds(view[1..]) == ServerLikerIds(stored[1..])
  {
    assert LikerIds(view[1..]) == LikerIds(view)[1..];
    assert ServerLikerIds(stored[1..]) == ServerLikerIds(stored)[1..];
  }

  lemma LikerIdsAppend(a: seq<LikeUser>, b: seq<LikeUser>)
    ensures LikerIds(a + b) == LikerIds(a) + LikerIds(b)
  {
  }

  lemma ServerLikerIdsAppend(a: seq<Like>, b: seq<Like>)
    ensures ServerLikerIds(a + b) == ServerLikerIds(a) + ServerLikerIds(b)
  {
  }

  /** Whatever the page holds for a post, populated likes or appended ids,
      as long as it names the same likers as the server, the corrected
      toggle leaves it naming the same likers as the server after the like
      request. */
  lemma ToggleMirrorsServer(view: seq<LikeUser>, stored: seq<Like>, me: Id, now: int)
    requires LikerIds(view) == ServerLikerIds(stored)
    ensures LikerIds(ToggleLikes(view, me)) == ServerLikerIds(Toggle(stored, me, now))
  {
    var mine := exists k :: 0 <= k < |view| && view[k].id == me;
    assert mine <==> Liked(stored, me) by {
      if mine {
        var k :| 0 <= k < |view| && view[k].id == me;
        assert stored[k].user == me;
      }
      if Liked(stored, me) {
        var k :| 0 <= k < |stored| && stored[k].user == me;
        assert view[k].id == me;
      }
    }
    if mine {
      FilterIdsAgree(view, stored, me);
    } else {
      assert LikerIds(view + [IdRef(me)]) == LikerIds(view) + [me];
      assert ServerLikerIds(stored + [Like(me, now)]) == ServerLikerIds(stored) + [me];
    }
  }

  // ---------------------------------------------------------------------
  // The composer

  /** The composer's text and selected post type. */
  datatype Composer = Composer(text: string, postType: string)

  const InitialComposer := Composer("", "update")

  /** The request `handleCreatePost` sends, if any: nothing for blank
      text, otherwise the text as typed and the selected type. */
  function CreatePostRequest(c: Composer): (r: Option<PostBody>)
    ensures r.Some? ==> r.value.content == Some(c.text) && r.value.postType == Some(c.postType)
  {
    if Trim(c.text) == "" then None
    else Some(PostBody(Some(c.text), Some(c.postType), None, None))
  }

  /** The page's state after `handleCreatePost`, given the post the server
      returned (`None` when no request was sent or it failed). */
  function AfterCreate(posts: seq<ClientPost>, c: Composer, created: Option<ClientPost>): (r: (seq<ClientPost>, Composer))
    ensures CreatePostRequest(c).Some? && created.Some? ==>
      && |r.0| == |posts| + 1 && r.0[0] == created.value && r.0[1..] == posts
      && r.1.text == "" && r.1.postType == "update"
    ensures CreatePostRequest(c).None? || created.None? ==> r.0 == posts && r.1 == c
  {
    if CreatePostRequest(c).None? || created.None? then (posts, c)
    else ([created.value] + posts, InitialComposer)
  }

  /** The page sends exactly the posts the server does not refuse as blank. */
  lemma ComposerGuardMatchesServer(c: Composer, caller: Id, id: Id)
    ensures CreatePostRequest(c).Some? <==> !BlankContent(Some(c.text))
    ensures CreatePostRequest(c).Some? ==> PreparePost(CreatePostRequest(c).value, caller, id).status != 400
  {
  }

  // ---------------------------------------------------------------------
  // Statistics, icons, recent jobs

  /** `reduce((acc, job) => acc + job.applicants.length, 0)`. */
  function TotalApplications(jobs: seq<JobPost>): (r: nat)
    ensures forall k :: 0 <= k < |jobs| ==> |jobs[k].applicants| <= r
  {
    if jobs == [] then 0
    else TotalApplications(jobs[..|jobs| - 1]) + |jobs[|jobs| - 1].applicants|
  }

  /** The total adds up over any split of the job list. */
  lemma {:induction false} TotalApplicationsAppend(a: seq<JobPost>, b: seq<JobPost>)
    ensures TotalApplications(a + b) == TotalApplications(a) + TotalApplications(b)
  {
    if b == [] {
      assert a + b == a;
    } else {
      var last := b[|b| - 1];
      assert (a + b)[..|a + b| - 1] == a + b[..|b| - 1];
      TotalApplicationsAppend(a, b[..|b| - 1]);
    }
  }

  /** Every application of every job is counted once. */
  lemma {:induction false} TotalApplicationsCounts(jobs: seq<JobPost>, j: JobPost)
    ensures TotalApplications([j] + jobs) == |j.applicants| + TotalApplications(jobs)
  {
    TotalApplicationsAppend([j], jobs);
    assert [j][..0] == [];
  }

  /** Reference count, front to back over the whole store: the applicants
      of every posting whose poster is `me`, each counted once. */
  function ApplicantsOf(store: seq<JobPost>, me: Id): (r: nat)
    ensures forall k :: 0 <= k < |store| && store[k].postedBy == me ==> |store[k].applicants| <= r
  {
    if store == [] then 0
    else
      var rest := ApplicantsOf(store[1..], me);
      assert forall k :: 1 <= k < |store| ==> store[k] == store[1..][k - 1];
      (if store[0].postedBy == me then |store[0].applicants| else 0) + rest
  }

  /** Summing over the user's postings, as the server lists them, counts
      exactly the applicants of the stored postings whose poster is the user. */
  lemma {:induction false} TotalOfPostedBy(store: seq<JobPost>, me: Id)
    ensures TotalApplications(Filter(store, PostedByUser(me))) == ApplicantsOf(store, me)
  {
    if store != [] {
      var keep := PostedByUser(me);
      var head := if keep(store[0]) then [store[0]] else [];
      assert Filter(store, keep) == head + Filter(store[1..], keep);
      TotalApplicationsAppend(head, Filter(store[1..], keep));
      TotalOfPostedBy(store[1..], me);
      if keep(store[0]) {
        TotalApplicationsCounts([], store[0]);
        assert [store[0]] + [] == [store[0]];
      }
    }
  }

  datatype Stats = Stats(jobsPosted: nat, totalApplications: nat, postsCreated: nat)

  function AuthoredBy(me: Id): ClientPost -> bool {
    (p: ClientPost) => p.authorId == me
  }

  /** The three computed tiles: "Posts Created" is the number of loaded
      posts whose author is the user, and every posting's applicants are
      part of "Total Applications". */
  function DashboardStats(userJobs: seq<JobPost>, posts: seq<ClientPost>, me: Id): (r: Stats)
    ensures r.jobsPosted == |userJobs| && r.totalApplications == TotalApplications(userJobs)
    ensures r.postsCreated == Count(posts, AuthoredBy(me))
    ensures forall k :: 0 <= k < |userJobs| ==> |userJobs[k].applicants| <= r.totalApplications
  {
    FilterCount(posts, AuthoredBy(me));
    Stats(|userJobs|, TotalApplications(userJobs), |Filter(posts, AuthoredBy(me))|)
  }

  /** With the user's postings as the server lists them, "Jobs Posted" is
      the number of stored postings whose poster is the user, and "Posts
      Created" the number of loaded posts whose author is the user: all of
      them when every loaded post is the user's, none when none is. */
  lemma StatsMeaning(store: seq<JobPost>, posts: seq<ClientPost>, me: Id)
    ensures var s := DashboardStats(PostedBy(store, me), posts, me);
            && s.jobsPosted == Count(store, PostedByUser(me))
            && s.totalApplications == ApplicantsOf(store, me)
            && s.postsCreated == Count(posts, AuthoredBy(me))
            && ((forall k :: 0 <= k < |posts| ==> posts[k].authorId == me) ==> s.postsCreated == |posts|)
            && ((forall k :: 0 <= k < |posts| ==> posts[k].authorId != me) ==> s.postsCreated == 0)
  {
    FilterCount(store, PostedByUser(me));
    TotalOfPostedBy(store, me);
    CountAll(posts, AuthoredBy(me));
    CountNone(posts, AuthoredBy(me));
  }

  datatype Icon = Trophy | Memo | QuestionMark | PartyPopper | Briefcase

  /** `getPostTypeIcon`. */
  function IconFor(postType: string): (r: Icon)
    ensures r == Briefcase <==> postType !in ["achievement", "article", "question", "celebration"]
  {
    if postType == "achievement" then Trophy
    else if postType == "article" then Memo
    else if postType == "question" then QuestionMark
    else if postType == "celebration" then PartyPopper
    else Briefcase
  }

  /** Among the five post types, `update` alone gets the default icon and
      the other four get four different icons. */
  lemma IconsOfPostTypes(t: PostType, u: PostType)
    ensures IconFor(PostTypeName(t)) == Briefcase <==> t == Update
    ensures t != Update && IconFor(PostTypeName(t)) == IconFor(PostTypeName(u)) ==> t == u
  {
  }

  /** The sidebar's "Your Recent Jobs": the first three postings. */
  function RecentJobs(jobs: seq<JobPost>): (r: seq<JobPost>)
    ensures |r| == if |jobs| < 3 then |jobs| else 3
    ensures r == jobs[..|r|]
  {
    if |jobs| < 3 then jobs else jobs[..3]
  }
}
