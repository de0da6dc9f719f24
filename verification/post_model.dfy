/** The social post document: post types, embedded likes and comments,
    length limits and defaults. */
module PostModel {
  import opened Common
  import opened Text

  datatype PostType = Update | Achievement | Article | Question | Celebration

  const PostTypeNames: seq<string> := ["update", "achievement", "article", "question", "celebration"]

  function PostTypeName(t: PostType): (r: string)
    ensures r in PostTypeNames
  {
    match t
    case Update => "update"
    case Achievement => "achievement"
    case Article => "article"
    case Question => "question"
    case Celebration => "celebration"
  }

  /** The enum validator on `postType`. */
  function ParsePostType(s: string): (r: Option<PostType>)
    ensures r.Some? <==> s in PostTypeNames
    ensures r.Some? ==> PostTypeName(r.value) == s
  {
    if s == "update" then Some(Update)
    else if s == "achievement" then Some(Achievement)
    else if s == "article" then Some(Article)
    else if s == "question" then Some(Question)
    else if s == "celebration" then Some(Celebration)
    else None
  }

  /** Every post type's name is accepted back as that type. */
  lemma PostTypeRoundTrip(t: PostType)
    ensures ParsePostType(PostTypeName(t)) == Some(t)
  {
  }

  const DefaultPostType := Update
  const DefaultImage := ""
  const MaxContentLength := 1000
  const MaxCommentLength := 500

  /** One entry of `likes`; `likedAt` is a timestamp. */
  datatype Like = Like(user: Id, likedAt: int)

  /** One entry of `comments`; `createdAt` is a timestamp. */
  datatype Comment = Comment(user: Id, content: string, createdAt: int)

  datatype UserPost = UserPost(
    id: Id,
    content: string,
    author: Id,
    postType: PostType,
    tags: seq<string>,
    likes: seq<Like>,
    comments: seq<Comment>,
    image: string)

  /** A comment's content is required and at most 500 UTF-16 code units. */
  predicate ValidComment(c: Comment) {
    c.content != "" && Utf16Length(c.content) <= MaxCommentLength
  }

  /** What the schema guarantees of a saved post: content present and at
      most 1000 UTF-16 code units, trimmed tags, valid comments. */
  predicate ValidPost(p: UserPost) {
    && p.content != "" && Utf16Length(p.content) <= MaxContentLength
    && AllTrimmed(p.tags)
    && forall k :: 0 <= k < |p.comments| ==> ValidComment(p.comments[k])
  }
}
