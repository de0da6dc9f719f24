/** The social-post endpoints: the paginated feed, post creation with its
    validation and defaults, the like/unlike toggle, adding a comment, and
    an author's posts. The collection is a sequence kept newest first. */
module PostRoutes {
  import opened Common
  import opened Text
  import opened PostModel
  import opened Pagination

  // ---------------------------------------------------------------------
  // Creating a post

  /** The create-post request body. */
  datatype PostBody = PostBody(
    content: Option<string>,
    postType: Option<string>,
    tags: Option<seq<string>>,
    image: Option<string>)

  /** Content that the handler refuses: missing, empty or only white space. */
  predicate BlankContent(content: Option<string>) {
    !Given(content) || Trim(content.value) == ""
  }

  /** The create-post handler up to the save: 400 for blank content, 500
      when the schema refuses the trimmed content or the post type, else the
      post with its defaults. */
  function PreparePost(b: PostBody, caller: Id, id: Id): (r: Reply<UserPost>)
    ensures r.status == 400 <==> BlankContent(b.content)
    ensures r.status == 400 ==> r.message == "Content is required"
    ensures BlankContent(b.content) <==> (!Given(b.content) || IsBlank(b.content.value))
    ensures r.status == 201 <==>
      && !BlankContent(b.content)
      && Utf16Length(Trim(b.content.value)) <= MaxContentLength
      && (Given(b.postType) ==> ParsePostType(b.postType.value).Some?)
    ensures r.status == 201 ==> r.body.Some? && ValidPost(r.body.value)
    ensures r.status == 201 ==>
      var p := r.body.value;
      && p.id == id && p.author == caller
      && p.content == Trim(b.content.value)
      && PostTypeName(p.postType) == (if Given(b.postType) then b.postType.value else "update")
      && p.tags == (if b.tags.Some? then TrimEach(b.tags.value) else [])
      && p.image == (if Given(b.image) then b.image.value else DefaultImage)
      && p.likes == [] && p.comments == []
    ensures r.status in {201, 400, 500}
  {
    if BlankContent(b.content) then Reply(400, "Content is required", None)
    else
      var content := Trim(b.content.value);
      var postType := if Given(b.postType) then ParsePostType(b.postType.value) else Some(DefaultPostType);
      if Utf16Length(content) > MaxContentLength || postType.None? then Reply(500, "Server error", None)
      else
        var post := UserPost(
          id, content, caller, postType.value,
          if b.tags.Some? then TrimEach(b.tags.value) else [],
          [], [],
          if Given(b.image) then b.image.value else DefaultImage);
        Reply(201, "Post created successfully", Some(post))
  }

  // ---------------------------------------------------------------------
  // Likes

  /** The caller has a like on the list. */
  predicate Liked(likes: seq<Like>, user: Id) {
    exists k :: 0 <= k < |likes| && likes[k].user == user
  }

  /** No user has two likes on the list. */
  predicate OneLikePerUser(likes: seq<Like>) {
    forall i, j :: 0 <= i < j < |likes| ==> likes[i].user != likes[j].user
  }

  /** The filter that keeps the likes of everyone but `user`. */
  function NotBy(user: Id): Like -> bool {
    (l: Like) => l.user != user
  }

  /** The likes of one user, in list order. */
  function LikesOf(likes: seq<Like>, user: Id): seq<Like> {
    Filter(likes, (l: Like) => l.user == user)
  }

  /** The toggle: remove every like by `user` if there is one, else append
      one. An unlike leaves no like by the user, a like adds exactly one. */
  function Toggle(likes: seq<Like>, user: Id, now: int): (r: seq<Like>)
    ensures Liked(likes, user) ==> |r| < |likes| && forall k :: 0 <= k < |r| ==> r[k].user != user
    ensures !Liked(likes, user) ==> |r| == |likes| + 1 && r[|likes|].user == user
  {
    if Liked(likes, user) then
      UnlikeShrinks(likes, user);
      Filter(likes, NotBy(user))
    else likes + [Like(user, now)]
  }

  /** Removing a user's likes drops at least the one found. */
  lemma {:induction false} UnlikeShrinks(likes: seq<Like>, user: Id)
    requires Liked(likes, user)
    ensures |Filter(likes, NotBy(user))| < |likes|
  {
    if likes[0].user != user {
      var k :| 0 <= k < |likes| && likes[k].user == user;
      assert likes[1..][k - 1].user == user;
      UnlikeShrinks(likes[1..], user);
    }
  }

  /** After the toggle the user has a like iff they had none before, and
      every other user's likes are exactly as before, in the same order. */
  lemma ToggleMeaning(likes: seq<Like>, user: Id, now: int, other: Id)
    requires other != user
    ensures Liked(Toggle(likes, user, now), user) <==> !Liked(likes, user)
    ensures LikesOf(Toggle(likes, user, now), other) == LikesOf(likes, other)
    ensures !Liked(likes, user) ==> LikesOf(Toggle(likes, user, now), user) == LikesOf(likes, user) + [Like(user, now)]
  {
    var t := Toggle(likes, user, now);
    if Liked(likes, user) {
      RemovingOtherUserKeepsLikes(likes, user, other);
    } else {
      FilterAppend(likes, [Like(user, now)], (l: Like) => l.user == other);
      FilterAppend(likes, [Like(user, now)], (l: Like) => l.user == user);
      assert t[|t| - 1].user == user;
    }
  }

  /** Removing `user`'s likes leaves `other`'s likes untouched. */
  lemma {:induction false} RemovingOtherUserKeepsLikes(likes: seq<Like>, user: Id, other: Id)
    requires other != user
    ensures LikesOf(Filter(likes, NotBy(user)), other) == LikesOf(likes, other)
  {
    if likes != [] {
      RemovingOtherUserKeepsLikes(likes[1..], user, other);
      var head := if NotBy(user)(likes[0]) then [likes[0]] else [];
      FilterAppend(head, Filter(likes[1..], NotBy(user)), (l: Like) => l.user == other);
    }
  }

  /** Toggle law: on a post the user has not liked, liking and then unliking
      gives back the original list. */
  lemma ToggleTwiceRestores(likes: seq<Like>, user: Id, t1: int, t2: int)
    requires !Liked(likes, user)
    ensures Toggle(Toggle(likes, user, t1), user, t2) == likes
  {
    var once := likes + [Like(user, t1)];
    assert once[|once| - 1].user == user;
    FilterAppend(likes, [Like(user, t1)], NotBy(user));
    FilterKeepsAll(likes, NotBy(user));
    assert Filter([Like(user, t1)], NotBy(user)) == [];
  }

  /** If no user had two likes before a toggle, none has two after it. */
  lemma ToggleKeepsOneLikePerUser(likes: seq<Like>, user: Id, now: int)
    requires OneLikePerUser(likes)
    ensures OneLikePerUser(Toggle(likes, user, now))
  {
    if Liked(likes, user) {
      FilterKeepsDistinct(likes, NotBy(user));
    } else {
      var t := likes + [Like(user, now)];
      forall i, j | 0 <= i < j < |t| ensures t[i].user != t[j].user {
        if j == |likes| {
          assert t[i] == likes[i];
        }
      }
    }
  }

  lemma {:induction false} FilterKeepsDistinct(likes: seq<Like>, keep: Like -> bool)
    requires OneLikePerUser(likes)
    ensures OneLikePerUser(Filter(likes, keep))
  {
    if likes != [] {
      FilterKeepsDistinct(likes[1..], keep);
      FilterMembers(likes[1..], keep);
      var rest := Filter(likes[1..], keep);
      var r := Filter(likes, keep);
      if keep(likes[0]) {
        assert r == [likes[0]] + rest;
        forall j | 0 <= j < |rest| ensures rest[j].user != likes[0].user {
          var m :| 0 <= m < |likes[1..]| && likes[1..][m] == rest[j];
          assert likes[m + 1] == rest[j];
        }
      }
    }
  }

  /** With at most one like per user, unliking lowers the count by one. */
  lemma {:induction false} UnlikeRemovesOne(likes: seq<Like>, user: Id)
    requires OneLikePerUser(likes) && Liked(likes, user)
    ensures |Filter(likes, NotBy(user))| == |likes| - 1
  {
    if likes[0].user == user {
      assert !Liked(likes[1..], user) by {
        forall m | 0 <= m < |likes[1..]| ensures likes[1..][m].user != user {
          assert likes[1..][m] == likes[m + 1];
        }
      }
      FilterKeepsAll(likes[1..], NotBy(user));
    } else {
      var k :| 0 <= k < |likes| && likes[k].user == user;
      assert likes[1..][k - 1].user == user;
      UnlikeRemovesOne(likes[1..], user);
    }
  }

  /** `likes.find(like => like.user === user)`, as a yes/no answer. */
  method HasLike(likes: seq<Like>, user: Id) returns (found: bool)
    ensures found <==> Liked(likes, user)
  {
    var k := 0;
    while k < |likes| && likes[k].user != user
      invariant 0 <= k <= |likes|
      invariant forall m :: 0 <= m < k ==> likes[m].user != user
    {
      k := k + 1;
    }
    found := k < |likes|;
  }

  /** `likes.filter(like => like.user !== user)`. */
  method RemoveLikesBy(likes: seq<Like>, user: Id) returns (kept: seq<Like>)
    ensures kept == Filter(likes, NotBy(user))
    ensures forall k :: 0 <= k < |kept| ==> kept[k].user != user
  {
    kept := [];
    var m := 0;
    while m < |likes|
      invariant 0 <= m <= |likes|
      invariant kept == Filter(likes[..m], NotBy(user))
    {
      FilterAppend(likes[..m], [likes[m]], NotBy(user));
      assert likes[..m + 1] == likes[..m] + [likes[m]];
      if likes[m].user != user {
        kept := kept + [likes[m]];
      }
      m := m + 1;
    }
    assert likes[..m] == likes;
  }

  /** The like handler as a step on the collection: 404 for an unknown id,
      otherwise the toggle, the message of the branch taken and the new count. */
  function LikeStep(posts: seq<UserPost>, id: Id, caller: Id, now: int): (r: (seq<UserPost>, Reply<nat>))
    ensures |r.0| == |posts|
    ensures r.1.status in {200, 404}
    ensures r.1.status == 404 ==> r.0 == posts
    ensures r.1.status == 200 ==> r.1.body.Some?
  {
    var i := IndexOf(posts, id);
    if i.None? then (posts, Reply(404, "Post not found", None))
    else
      var p := posts[i.value];
      var likes := Toggle(p.likes, caller, now);
      (posts[i.value := p.(likes := likes)],
       Reply(200, if Liked(p.likes, caller) then "Post unliked" else "Post liked", Some(|likes|)))
  }

  /** The reply of the like handler: its message names the branch taken and
      the count is that of the new list, one more or (with at most one like
      per user) one fewer than before; nothing but that post's likes changes. */
  lemma LikeReply(posts: seq<UserPost>, id: Id, caller: Id, now: int)
    requires forall k :: 0 <= k < |posts| ==> OneLikePerUser(posts[k].likes)
    ensures var (after, reply) := LikeStep(posts, id, caller, now);
      var i := IndexOf(posts, id);
      && |after| == |posts|
      && (reply.status == 404 <==> forall k :: 0 <= k < |posts| ==> posts[k].id != id)
      && (reply.status == 200 <==> i.Some?)
      && (i.Some? ==> after[i.value].likes == Toggle(posts[i.value].likes, caller, now))
      && (reply.status == 404 ==> after == posts)
      && (reply.status == 200 ==>
            var i := IndexOf(posts, id).value;
            && after == posts[i := posts[i].(likes := after[i].likes)]
            && reply.body == Some(|after[i].likes|)
            && (Liked(posts[i].likes, caller) ==>
                  reply.message == "Post unliked" && |after[i].likes| == |posts[i].likes| - 1)
            && (!Liked(posts[i].likes, caller) ==>
                  reply.message == "Post liked" && |after[i].likes| == |posts[i].likes| + 1))
  {
    var i := IndexOf(posts, id);
    if i.Some? && Liked(posts[i.value].likes, caller) {
      UnlikeRemovesOne(posts[i.value].likes, caller);
    }
  }

  // ---------------------------------------------------------------------
  // Comments

  /** The comment handler as a step on the collection. Blank content is
      refused before the lookup, so it is 400 even for an unknown id. */
  function CommentStep(posts: seq<UserPost>, id: Id, caller: Id, content: Option<string>, now: int)
    : (r: (seq<UserPost>, Reply<Comment>))
    ensures r.1.status in {200, 400, 404, 500}
    ensures r.1.status != 200 ==> r.0 == posts && r.1.body.None?
    ensures r.1.status == 200 ==> |r.0| == |posts| && r.1.body.Some? && ValidComment(r.1.body.value)
  {
    if BlankContent(content) then (posts, Reply(400, "Comment content is required", None))
    else
      var i := IndexOf(posts, id);
      if i.None? then (posts, Reply(404, "Post not found", None))
      else
        var c := Comment(caller, Trim(content.value), now);
        if !ValidComment(c) then (posts, Reply(500, "Server error", None))
        else
          var p := posts[i.value];
          (posts[i.value := p.(comments := p.comments + [c])], Reply(200, "Comment added successfully", Some(c)))
  }

  /** A successful comment appends the trimmed text by the caller to that
      post only, the count grows by one, and the reply carries the last
      comment of the list; any failure changes nothing. */
  lemma CommentAppends(posts: seq<UserPost>, id: Id, caller: Id, content: Option<string>, now: int)
    ensures var (after, reply) := CommentStep(posts, id, caller, content, now);
      var i := IndexOf(posts, id);
      && (reply.status == 400 <==> BlankContent(content))
      && (reply.status == 404 <==> !BlankContent(content) && i.None?)
      && (reply.status == 500 <==>
            !BlankContent(content) && i.Some? && Utf16Length(Trim(content.value)) > MaxCommentLength)
      && (reply.status == 200 <==>
            !BlankContent(content) && i.Some? && Utf16Length(Trim(content.value)) <= MaxCommentLength)
      && (reply.status != 200 ==> after == posts)
      && (reply.status == 200 ==>
            var i := IndexOf(posts, id).value;
            var cs := after[i].comments;
            && |after| == |posts|
            && after == posts[i := posts[i].(comments := cs)]
            && |cs| == |posts[i].comments| + 1
            && cs[..|cs| - 1] == posts[i].comments
            && reply.body == Some(cs[|cs| - 1])
            && cs[|cs| - 1].user == caller
            && cs[|cs| - 1].content == Trim(content.value)
            && ValidComment(cs[|cs| - 1]))
  {
  }

  // ---------------------------------------------------------------------
  // The collection and its handlers

  /** `findById`: the position of the post with that id, if any. */
  function IndexOf(posts: seq<UserPost>, id: Id): (r: Option<nat>)
    ensures r.Some? ==> r.value < |posts| && posts[r.value].id == id
    ensures r.None? ==> forall k :: 0 <= k < |posts| ==> posts[k].id != id
  {
    FirstIndex(posts, (p: UserPost) => p.id == id)
  }

  /** The posts of one author, as the user-posts endpoint returns them. */
  function ByAuthor(posts: seq<UserPost>, author: Id): (r: seq<UserPost>)
    ensures forall k :: 0 <= k < |r| ==> r[k] in posts && r[k].author == author
    ensures forall k :: 0 <= k < |posts| && posts[k].author == author ==> posts[k] in r
  {
    var keep := (p: UserPost) => p.author == author;
    FilterMembers(posts, keep);
    Filter(posts, keep)
  }

  predicate DistinctIds(posts: seq<UserPost>) {
    forall a, b :: 0 <= a < b < |posts| ==> posts[a].id != posts[b].id
  }

  /** The collection's invariant: distinct ids, every post valid for the
      schema, at most one like per user on every post. */
  predicate ValidStore(posts: seq<UserPost>) {
    && DistinctIds(posts)
    && forall k :: 0 <= k < |posts| ==> ValidPost(posts[k]) && OneLikePerUser(posts[k].likes)
  }

  lemma PrependKeepsValid(posts: seq<UserPost>, p: UserPost)
    requires ValidStore(posts) && ValidPost(p) && OneLikePerUser(p.likes)
    requires forall k :: 0 <= k < |posts| ==> posts[k].id != p.id
    ensures ValidStore([p] + posts)
  {
    var all := [p] + posts;
    forall k | 1 <= k < |all| ensures all[k] == posts[k - 1] { }
  }

  lemma ReplaceKeepsValid(posts: seq<UserPost>, i: nat, p: UserPost)
    requires ValidStore(posts) && i < |posts| && p.id == posts[i].id
    requires ValidPost(p) && OneLikePerUser(p.likes)
    ensures ValidStore(posts[i := p])
  {
  }

  class PostFeed {
    /** The collection, newest post first. */
    var posts: seq<UserPost>

    ghost predicate Valid()
      reads this
    {
      ValidStore(posts)
    }

    constructor ()
      ensures Valid() && posts == []
    {
      posts := [];
    }

    /** `GET /posts`: a page of all posts and its envelope; an absent
        `page` is 1 and an absent `limit` is 10. */
    method Feed(page: Option<int>, limit: Option<int>) returns (items: seq<UserPost>, info: PageInfo)
      requires PageParams(page, limit)
      ensures var pg := OrDefault(page, DefaultPage);
        var lim := OrDefault(limit, DefaultLimit);
        && items == Window(posts, Skip(pg, lim), lim)
        && info == Envelope(pg, lim, |posts|, |items|)
      ensures page.None? ==> info.current == 1 && !info.hasPrev
      ensures limit.None? ==> |items| <= 10
      ensures limit.Some? ==> |items| <= limit.value
    {
      var pg := if page.Some? then page.value else DefaultPage;
      var lim := if limit.Some? then limit.value else DefaultLimit;
      items := Window(posts, Skip(pg, lim), lim);
      info := Envelope(pg, lim, |posts|, |items|);
    }

    /** `POST /posts`: a valid post is stored in front of the others. */
    method Create(b: PostBody, caller: Id, id: Id) returns (r: Reply<UserPost>)
      requires Valid()
      requires forall k :: 0 <= k < |posts| ==> posts[k].id != id
      modifies this
      ensures Valid()
      ensures r == PreparePost(b, caller, id)
      ensures posts == if r.status == 201 then [r.body.value] + old(posts) else old(posts)
    {
      r := PreparePost(b, caller, id);
      if r.status == 201 {
        PrependKeepsValid(posts, r.body.value);
        posts := [r.body.value] + posts;
      }
    }

    /** `POST /posts/:id/like`: `find` the caller's like, then either
        `filter` the caller's likes out or push one. */
    method ToggleLike(id: Id, caller: Id, now: int) returns (r: Reply<nat>)
      requires Valid()
      modifies this
      ensures Valid()
      ensures (posts, r) == LikeStep(old(posts), id, caller, now)
    {
      var i := IndexOf(posts, id);
      if i.None? {
        return Reply(404, "Post not found", None);
      }
      var post := posts[i.value];
      var likes := post.likes;
      var existing := HasLike(likes, caller);
      var updated: seq<Like>;
      if existing {
        updated := RemoveLikesBy(likes, caller);
      } else {
        updated := likes + [Like(caller, now)];
      }
      assert updated == Toggle(likes, caller, now);
      ToggleKeepsOneLikePerUser(likes, caller, now);
      ReplaceKeepsValid(posts, i.value, post.(likes := updated));
      posts := posts[i.value := post.(likes := updated)];
      r := Reply(200, if existing then "Post unliked" else "Post liked", Some(|updated|));
    }

    /** `POST /posts/:id/comment`. */
    method AddComment(id: Id, caller: Id, content: Option<string>, now: int) returns (r: Reply<Comment>)
      requires Valid()
      modifies this
      ensures Valid()
      ensures (posts, r) == CommentStep(old(posts), id, caller, content, now)
    {
      if !Given(content) || Trim(content.value) == "" {
        return Reply(400, "Comment content is required", None);
      }
      var i := IndexOf(posts, id);
      if i.None? {
        return Reply(404, "Post not found", None);
      }
      var c := Comment(caller, Trim(content.value), now);
      if Utf16Length(c.content) > MaxCommentLength {
        return Reply(500, "Server error", None);
      }
      var post := posts[i.value];
      ReplaceKeepsValid(posts, i.value, post.(comments := post.comments + [c]));
      posts := posts[i.value := post.(comments := post.comments + [c])];
      r := Reply(200, "Comment added successfully", Some(c));
    }

    /** `GET /posts/user/:userId`. */
    method OfAuthor(author: Id) returns (r: seq<UserPost>)
      ensures r == ByAuthor(posts, author)
      ensures forall k :: 0 <= k < |r| ==> r[k].author == author
    {
      r := ByAuthor(posts, author);
    }
  }
}
