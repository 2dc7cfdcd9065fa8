/**
 * Entities shared by the request handlers and the vote components: identifiers,
 * vote types, the rows of the database tables and the cached post snapshot.
 */
module Domain {

  datatype Option<+T> = None | Some(value: T)

  type UserId = string
  type PostId = string
  type SubredditId = string
  type CommentId = string

  /** A JSON value as a request body carries it; only its shape matters here. */
  datatype Json =
    | JUndefined
    | JNull
    | JBool(b: bool)
    | JNumber(n: int)
    | JString(s: string)
    | JArray(items: seq<Json>)
    | JObject(fields: seq<(string, Json)>)

  /** Prisma's VoteType enum. */
  datatype VoteType = UP | DOWN

  /** The contribution of one vote to a post's score: +1 for UP, -1 for DOWN. */
  function Weight(t: VoteType): (w: int)
    ensures w == 1 || w == -1
    ensures (w == 1) <==> (t == UP)
  {
    if t == UP then 1 else -1
  }

  /** The contribution of an optional vote: none counts 0. */
  function OptWeight(v: Option<VoteType>): (w: int)
    ensures v.None? ==> w == 0
    ensures v.Some? ==> w == Weight(v.value)
  {
    match v
    case None => 0
    case Some(t) => Weight(t)
  }

  function Opposite(t: VoteType): (o: VoteType)
    ensures o != t
  {
    if t == UP then DOWN else UP
  }

  /** The issues the post schema can report, in the order it reports them. */
  datatype Issue =
    | BodyNotObject
    | TitleNotString
    | TitleTooSmall
    | TitleTooBig
    | SubredditIdNotString

  /** One row of the vote table; (userId, postId) is its unique key. */
  datatype Vote = Vote(userId: UserId, postId: PostId, voteType: VoteType)

  /** One row of the subscription table; the pair itself is the key. */
  datatype Subscription = Subscription(userId: UserId, subredditId: SubredditId)

  datatype Subreddit = Subreddit(name: string, creatorId: Option<UserId>)

  datatype User = User(username: Option<string>)

  datatype PostRow = PostRow(
    id: PostId,
    title: string,
    content: Json,
    subredditId: SubredditId,
    authorId: UserId,
    createdAt: int)

  datatype CommentRow = CommentRow(
    id: CommentId,
    postId: PostId,
    text: string,
    replyToId: Option<CommentId>,
    authorId: UserId,
    createdAt: int)

  /** The serialised post content, as JSON.stringify leaves it; kept opaque. */
  datatype Serialized = Stringified(source: Json)

  /** The denormalised snapshot written to the read cache. */
  datatype CachedPost = CachedPost(
    id: PostId,
    title: string,
    authorUsername: string,
    content: Serialized,
    currentVote: VoteType,
    createdAt: int)
}
