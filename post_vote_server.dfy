/**
 * The server side of a post's vote widget: it either derives the initial score
 * and the viewer's vote from the post it fetches, or passes through the values
 * it was given, and hands them with the post id to the client controller.
 */
module PostVoteServer {
  import opened Domain
  import opened VoteScore
  import VoteLedger
  import PostFeed

  /** The post `getData` resolves to; its vote list may be null. */
  datatype FetchedPost = FetchedPost(votes: Option<seq<Vote>>)

  /** The props of the client controller; an absent score or vote is undefined. */
  datatype ClientProps = ClientProps(postId: PostId, initialVoteAmount: Option<int>, initialVote: Option<VoteType>)

  datatype Rendered = NotFound | Client(props: ClientProps)

  /** The viewer's vote type among `votes`, from the first vote the viewer cast. */
  function ViewerVoteType(votes: seq<Vote>, viewer: Option<UserId>): (r: Option<VoteType>)
    ensures r.None? <==> PostFeed.CurrentVote(votes, viewer).None?
    ensures r.Some? ==> r.value == PostFeed.CurrentVote(votes, viewer).value.voteType
  {
    match PostFeed.CurrentVote(votes, viewer)
    case None => None
    case Some(v) => Some(v.voteType)
  }

  /**
   * One render. `getData` is absent (None), resolves to nothing (Some(None))
   * or resolves to a post (Some(Some(post))); `viewer` is the session user.
   */
  function Render(postId: PostId, initialVoteAmt: Option<int>, initialVote: Option<VoteType>,
                  getData: Option<Option<FetchedPost>>, viewer: Option<UserId>): (r: Rendered)
    ensures r.NotFound? <==> getData == Some(None)
    ensures r.Client? ==> r.props.postId == postId
    ensures getData.None? ==> r.props.initialVoteAmount == initialVoteAmt && r.props.initialVote == initialVote
    ensures getData.Some? && getData.value.Some? && getData.value.value.votes.None? ==>
      r.props.initialVoteAmount.None? && r.props.initialVote.None?
    ensures getData.Some? && getData.value.Some? && getData.value.value.votes.Some? ==>
      var votes := getData.value.value.votes.value;
      && r.props.initialVoteAmount.Some?
      && -|votes| <= r.props.initialVoteAmount.value <= |votes|
      && (r.props.initialVote.None? <==> viewer.None? || forall v :: v in votes ==> v.userId != viewer.value)
      && (r.props.initialVote.Some? ==>
            exists v :: v in votes && v.userId == viewer.value && v.voteType == r.props.initialVote.value)
  {
    match getData
    case None => Client(ClientProps(postId, initialVoteAmt, initialVote))
    case Some(fetched) =>
      match fetched
      case None => NotFound
      case Some(post) =>
        match post.votes
        case None => Client(ClientProps(postId, None, None))
        case Some(votes) => Client(ClientProps(postId, Some(Score(votes)), ViewerVoteType(votes, viewer)))
  }

  /** The server widget and the feed show the same score and the same viewer vote for the same votes. */
  lemma AgreesWithFeed(postId: PostId, a: Option<int>, b: Option<VoteType>, votes: seq<Vote>,
                       posts: seq<PostFeed.FeedPost>, i: nat, viewer: Option<UserId>)
    requires i < |posts| && posts[i].votes == votes
    ensures var r := Render(postId, a, b, Some(Some(FetchedPost(Some(votes)))), viewer);
      var item := PostFeed.Render(posts, viewer)[i];
      && r.props.initialVoteAmount == Some(item.votesAmt)
      && r.props.initialVote == (if item.currentVote.None? then None else Some(item.currentVote.value.voteType))
  {
  }

  /**
   * Over the votes of post p read from a table with one row per (userId, postId),
   * the widget starts at the post's score in the table and at the vote the vote
   * handler would find for the viewer.
   */
  lemma MatchesLedger(ledger: seq<Vote>, p: PostId, a: Option<int>, b: Option<VoteType>, u: UserId)
    requires VoteLedger.Unique(ledger)
    ensures var votes := VoteLedger.VotesOf(ledger, p);
      var r := Render(p, a, b, Some(Some(FetchedPost(Some(votes)))), Some(u));
      && r.props.initialVoteAmount == Some(Score(votes))
      && r.props.initialVote == VoteLedger.Lookup(ledger, u, p)
  {
    PostFeed.CurrentVoteIsLedgerLookup(ledger, u, p);
  }
}
