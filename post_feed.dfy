/**
 * The infinite-scroll post feed: the pages of posts loaded so far, the number
 * of the next page to ask for, and what each rendered post is given (its
 * score, the viewer's own vote, its comment count, and whether it carries the
 * intersection ref that triggers the next fetch).
 */
module PostFeed {
  import opened Domain
  import opened VoteScore
  import VoteLedger

  /** A post as the feed receives it: with its subreddit's name, its votes and its comments. */
  datatype FeedPost = FeedPost(id: PostId, subredditName: string, votes: seq<Vote>, comments: seq<CommentRow>)

  /** The infinite query's data: the pages loaded, and the page number each was fetched with. */
  datatype FeedData = FeedData(pages: seq<seq<FeedPost>>, pageParams: seq<int>)

  /** What the feed hands to one post. */
  datatype FeedItem = FeedItem(
    post: FeedPost,
    subredditName: string,
    commentAmt: nat,
    currentVote: Option<Vote>,
    votesAmt: int,
    hasRef: bool)

  /**
   * `votes.find((vote) => vote.userId === session?.user?.id)`: the first vote
   * cast by the viewer. With no session the id is undefined and no vote matches.
   */
  function CurrentVote(votes: seq<Vote>, viewer: Option<UserId>): (r: Option<Vote>)
    ensures r.None? <==> viewer.None? || forall i :: 0 <= i < |votes| ==> votes[i].userId != viewer.value
    ensures r.Some? ==> exists i :: 0 <= i < |votes| && votes[i] == r.value && r.value.userId == viewer.value
                          && forall j :: 0 <= j < i ==> votes[j].userId != viewer.value
  {
    if viewer.None? || |votes| == 0 then None
    else if votes[0].userId == viewer.value then Some(votes[0])
    else
      var r := CurrentVote(votes[1..], viewer);
      if r.Some? then
        var i :| 0 <= i < |votes[1..]| && votes[1..][i] == r.value && r.value.userId == viewer.value
                 && forall j :: 0 <= j < i ==> votes[1..][j].userId != viewer.value;
        assert votes[i + 1] == r.value;
        r
      else r
  }

  /**
   * Read over the votes of one post in a table that keeps one row per
   * (userId, postId), the viewer's vote is the one the vote handler looks up.
   */
  lemma CurrentVoteIsLedgerLookup(ledger: seq<Vote>, u: UserId, p: PostId)
    requires VoteLedger.Unique(ledger)
    ensures var cv := CurrentVote(VoteLedger.VotesOf(ledger, p), Some(u));
      (if cv.None? then None else Some(cv.value.voteType)) == VoteLedger.Lookup(ledger, u, p)
  {
    var votes := VoteLedger.VotesOf(ledger, p);
    var cv := CurrentVote(votes, Some(u));
    match cv
    case None =>
    case Some(v) =>
      assert v in votes;
      assert v in ledger && v.postId == p && v.userId == u;
      var t := VoteLedger.Lookup(ledger, u, p);
      assert t.Some?;
      VoteLedger.KeyDetermines(ledger, v, Vote(u, p, t.value));
  }

  /** The page parameter of the first fetch, and of the initial data. */
  const FirstPage := 1

  /** `getNextPageParam`: one more than the number of pages loaded. */
  function NextPageParam(pages: seq<seq<FeedPost>>): (n: int)
    ensures n >= FirstPage + 1 <==> pages != []
    ensures n - FirstPage == |pages|
  {
    |pages| + 1
  }

  /** Page i (from 0) was fetched with page number i + 1. */
  predicate PagesNumbered(d: FeedData)
  {
    |d.pageParams| == |d.pages| && forall i :: 0 <= i < |d.pageParams| ==> d.pageParams[i] == FirstPage + i
  }

  /** The initial data: the server-rendered posts as page 1. */
  function InitialData(initialPosts: seq<FeedPost>): (d: FeedData)
    ensures PagesNumbered(d)
    ensures Flatten(d.pages) == initialPosts
  {
    assert Flatten([initialPosts]) == Flatten([]) + initialPosts;
    FeedData([initialPosts], [FirstPage])
  }

  /** `fetchNextPage`: the page fetched with the next page parameter is appended. */
  function FetchNext(d: FeedData, page: seq<FeedPost>): (d': FeedData)
    requires PagesNumbered(d)
    ensures PagesNumbered(d')
    ensures d'.pages == d.pages + [page]
    ensures Flatten(d'.pages) == Flatten(d.pages) + page
    ensures d'.pageParams[|d.pages|] !in d.pageParams
  {
    assert (d.pages + [page])[..|d.pages|] == d.pages;
    FeedData(d.pages + [page], d.pageParams + [NextPageParam(d.pages)])
  }

  /** `pages.flatMap((page) => page)`: the pages' posts, in page order. */
  function Flatten(pages: seq<seq<FeedPost>>): (posts: seq<FeedPost>)
    ensures forall i, x :: 0 <= i < |pages| && x in pages[i] ==> x in posts
    ensures forall x :: x in posts ==> exists i :: 0 <= i < |pages| && x in pages[i]
    decreases |pages|
  {
    if |pages| == 0 then []
    else
      var init := pages[..|pages| - 1];
      var r := Flatten(init) + pages[|pages| - 1];
      assert forall i :: 0 <= i < |init| ==> init[i] == pages[i];
      r
  }

  /** `data?.pages.flatMap(...) ?? initialPosts`: the posts the feed lists. */
  function ListedPosts(data: Option<FeedData>, initialPosts: seq<FeedPost>): (posts: seq<FeedPost>)
    ensures data.None? ==> posts == initialPosts
    ensures data.Some? ==> forall x :: x in posts <==> exists i :: 0 <= i < |data.value.pages| && x in data.value.pages[i]
  {
    if data.Some? then Flatten(data.value.pages) else initialPosts
  }

  /** Before any fetch the feed lists exactly the initial posts; each fetch appends its page. */
  lemma {:induction false} ListingGrowsByPage(initialPosts: seq<FeedPost>, fetched: seq<seq<FeedPost>>)
    ensures var d := FetchAll(InitialData(initialPosts), fetched);
      && PagesNumbered(d)
      && ListedPosts(Some(d), initialPosts) == initialPosts + Flatten(fetched)
      && NextPageParam(d.pages) == |fetched| + 2
    decreases |fetched|
  {
    if |fetched| > 0 {
      var init := fetched[..|fetched| - 1];
      ListingGrowsByPage(initialPosts, init);
      var d := FetchAll(InitialData(initialPosts), init);
      assert Flatten(fetched) == Flatten(init) + fetched[|fetched| - 1];
      assert FetchAll(InitialData(initialPosts), fetched) == FetchNext(d, fetched[|fetched| - 1]);
    }
  }

  /** A sequence of fetches, one per page, in order. */
  function FetchAll(d: FeedData, fetched: seq<seq<FeedPost>>): (d': FeedData)
    requires PagesNumbered(d)
    ensures PagesNumbered(d')
    ensures d'.pages == d.pages + fetched
    decreases |fetched|
  {
    if |fetched| == 0 then d
    else
      var init := fetched[..|fetched| - 1];
      assert fetched == init + [fetched[|fetched| - 1]];
      FetchNext(FetchAll(d, init), fetched[|fetched| - 1])
  }

  /** What the feed gives the post at `index` of the list. */
  function Item(posts: seq<FeedPost>, index: nat, viewer: Option<UserId>): (item: FeedItem)
    requires index < |posts|
    ensures item.post == posts[index] && item.subredditName == posts[index].subredditName
    ensures item.commentAmt == |posts[index].comments|
    ensures item.hasRef <==> index == |posts| - 1
    ensures item.votesAmt == Score(posts[index].votes)
    ensures item.currentVote == CurrentVote(posts[index].votes, viewer)
  {
    var post := posts[index];
    FeedItem(post, post.subredditName, |post.comments|, CurrentVote(post.votes, viewer),
             Score(post.votes), index == |posts| - 1)
  }

  /** The rendered list: one item per post, in order. */
  function Render(posts: seq<FeedPost>, viewer: Option<UserId>): (items: seq<FeedItem>)
    ensures |items| == |posts|
    ensures forall i :: 0 <= i < |posts| ==> items[i] == Item(posts, i, viewer)
  {
    seq(|posts|, i requires 0 <= i < |posts| => Item(posts, i, viewer))
  }

  /**
   * Exactly one item carries the intersection ref when the list is not empty,
   * and it is the last; each item's score is the fold over its post's votes,
   * bounded by their number and 0 without votes, and its vote is the viewer's
   * first vote on the post.
   */
  lemma RenderedItems(posts: seq<FeedPost>, viewer: Option<UserId>)
    ensures var items := Render(posts, viewer);
      && (forall i, j :: 0 <= i < |items| && 0 <= j < |items| && items[i].hasRef && items[j].hasRef ==> i == j)
      && (|items| > 0 ==> items[|items| - 1].hasRef)
      && (forall i :: 0 <= i < |items| ==> items[i].votesAmt == Score(posts[i].votes))
      && (forall i :: 0 <= i < |items| ==> items[i].currentVote == CurrentVote(posts[i].votes, viewer))
      && (forall i :: 0 <= i < |items| ==> -|posts[i].votes| <= items[i].votesAmt <= |posts[i].votes|)
      && (forall i :: 0 <= i < |items| && posts[i].votes == [] ==> items[i].votesAmt == 0)
  {
  }

  /** Reordering a post's votes does not change the score the feed shows. */
  lemma ScoreIgnoresVoteOrder(posts: seq<FeedPost>, i: nat, votes: seq<Vote>, viewer: Option<UserId>)
    requires i < |posts| && multiset(votes) == multiset(posts[i].votes)
    ensures Render(posts[i := posts[i].(votes := votes)], viewer)[i].votesAmt == Render(posts, viewer)[i].votesAmt
  {
    ScorePermutation(votes, posts[i].votes);
  }
}
