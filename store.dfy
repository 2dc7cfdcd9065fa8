/**
 * The persistent state the request handlers read and change: the database
 * tables, the read cache, and whether each of the two stores is reachable.
 * `DbState` is its value; class `Db` holds it as fields that the handlers
 * update in place.
 */
module Store {
  import opened Domain
  import VoteLedger
  import Http

  datatype DbState = DbState(
    users: map<UserId, User>,
    subreddits: map<SubredditId, Subreddit>,
    subscriptions: set<Subscription>,
    posts: seq<PostRow>,
    comments: seq<CommentRow>,
    votes: seq<Vote>,
    cache: map<string, CachedPost>,
    dbOnline: bool,
    cacheOnline: bool)

  /** What a handler returns, and the state it leaves behind. */
  datatype Handled = Handled(response: Http.Response, state: DbState)

  /** The database's own constraint: one vote row per (userId, postId). */
  predicate Consistent(st: DbState)
  {
    VoteLedger.Unique(st.votes)
  }

  /** `db.post.findFirst({ where: { id } })`: the first post row with that id. */
  function FindPost(posts: seq<PostRow>, id: PostId): (r: Option<PostRow>)
    ensures r.Some? ==> r.value in posts && r.value.id == id
    ensures r.None? <==> forall q :: q in posts ==> q.id != id
  {
    if |posts| == 0 then None
    else if posts[0].id == id then Some(posts[0])
    else
      assert forall q :: q in posts ==> q == posts[0] || q in posts[1..];
      FindPost(posts[1..], id)
  }

  /** `post?.author?.username || ""`: the author's user name, or "" when there is none. */
  function AuthorUsername(users: map<UserId, User>, authorId: UserId): (name: string)
    ensures authorId !in users || users[authorId].username.None? ==> name == ""
    ensures authorId in users && users[authorId].username.Some? ==> name == users[authorId].username.value
  {
    if authorId in users && users[authorId].username.Some? then users[authorId].username.value else ""
  }

  /** The cache key `post:<id>`. */
  function CacheKey(postId: PostId): (key: string)
    ensures |key| == |postId| + 5 && key[..5] == "post:" && key[5..] == postId
  {
    "post:" + postId
  }

  /** Distinct posts never share a cache entry. */
  lemma CacheKeyInjective(p: PostId, q: PostId)
    ensures CacheKey(p) == CacheKey(q) ==> p == q
  {
  }

  /** `db.subreddit.findFirst({ where: { id, creatorId } })`: the subreddit with that id, if u created it. */
  function FindCreatedSubreddit(subreddits: map<SubredditId, Subreddit>, s: SubredditId, u: UserId): (r: Option<Subreddit>)
    ensures r.Some? ==> s in subreddits && r.value == subreddits[s] && r.value.creatorId == Some(u)
    ensures r.None? ==> s !in subreddits || subreddits[s].creatorId != Some(u)
  {
    if s in subreddits && subreddits[s].creatorId == Some(u) then Some(subreddits[s]) else None
  }

  /** The creator check of the unsubscribe handler: the lookup above finds a row. */
  predicate IsCreator(subreddits: map<SubredditId, Subreddit>, s: SubredditId, u: UserId)
  {
    FindCreatedSubreddit(subreddits, s, u).Some?
  }

  class Db {
    var users: map<UserId, User>
    var subreddits: map<SubredditId, Subreddit>
    var subscriptions: set<Subscription>
    var posts: seq<PostRow>
    var comments: seq<CommentRow>
    var votes: seq<Vote>
    var cache: map<string, CachedPost>
    var dbOnline: bool
    var cacheOnline: bool

    /** The value the fields hold. */
    function State(): DbState
      reads this
    {
      DbState(users, subreddits, subscriptions, posts, comments, votes, cache, dbOnline, cacheOnline)
    }

    constructor (st: DbState)
      ensures State() == st
    {
      users, subreddits, subscriptions := st.users, st.subreddits, st.subscriptions;
      posts, comments, votes := st.posts, st.comments, st.votes;
      cache, dbOnline, cacheOnline := st.cache, st.dbOnline, st.cacheOnline;
    }
  }
}
