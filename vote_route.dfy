/**
 * The vote handler (PATCH on the post-vote route). Given the session user and
 * a request (postId, voteType) it creates, deletes or retypes the user's vote
 * on the post, then writes a snapshot of the post to the cache at `post:<id>`
 * when the post's score, folded over the votes read before the change, is at
 * least the promotion threshold. A toggle-off returns before any cache write.
 */
module VoteRoute {
  import opened Domain
  import opened Http
  import opened Store
  import opened VoteLedger
  import opened VoteScore

  /** The promotion threshold: a score at which a post's snapshot is cached. */
  const CacheAfterUpvotes := 1

  const VoteFailed := "Error posting vote, please try again."

  datatype VoteRequest = VoteRequest(postId: PostId, voteType: VoteType)

  /** The cache payload: the post's fields and the vote just requested. */
  function Snapshot(users: map<UserId, User>, post: PostRow, t: VoteType): (c: CachedPost)
    ensures c.id == post.id && c.title == post.title && c.currentVote == t
    ensures c.content == Stringified(post.content) && c.createdAt == post.createdAt
    ensures c.authorUsername == AuthorUsername(users, post.authorId)
  {
    CachedPost(post.id, post.title, AuthorUsername(users, post.authorId), Stringified(post.content), t, post.createdAt)
  }

  /**
   * The tail shared by the create and the retype paths, run on the state after
   * the ledger change: the cache write gated on `score`, then `status`. A failing
   * cache write answers 500 and leaves the ledger change in place.
   */
  function CacheWriteBack(st: DbState, post: PostRow, p: PostId, t: VoteType, score: int, status: int): (h: Handled)
    ensures h.state.votes == st.votes
  {
    if score >= CacheAfterUpvotes then
      if st.cacheOnline then
        Handled(Response(status, Text("OK")), st.(cache := st.cache[CacheKey(p) := Snapshot(st.users, post, t)]))
      else
        Handled(Response(INTERNAL_ERROR, Text(VoteFailed)), st)
    else
      Handled(Response(status, Text("OK")), st)
  }

  /** The handler's guards passed: signed in, well-formed body, database up, post found. */
  predicate Ready(st: DbState, session: Option<UserId>, body: Body<VoteRequest>)
  {
    session.Some? && body.Valid? && st.dbOnline && FindPost(st.posts, body.value.postId).Some?
  }

  /** One PATCH request, from the state it finds to the response and the state it leaves. */
  function PatchStep(st: DbState, session: Option<UserId>, body: Body<VoteRequest>): (h: Handled)
    ensures session.None? ==> h.response.status == UNAUTHORIZED && h.state == st
    ensures session.Some? && body.NotJson? ==> h.response.status == INTERNAL_ERROR && h.state == st
    ensures session.Some? && body.Invalid? ==> h.response.status == UNPROCESSABLE && h.state == st
    ensures session.Some? && body.Valid? && !st.dbOnline ==> h.response.status == INTERNAL_ERROR && h.state == st
    ensures session.Some? && body.Valid? && st.dbOnline && FindPost(st.posts, body.value.postId).None? ==>
      h.response.status == NOT_FOUND && h.state == st
    ensures h.response.status in {OK, CREATED, UNAUTHORIZED, NOT_FOUND, UNPROCESSABLE, INTERNAL_ERROR}
    // only the vote table and the cache ever change
    ensures h.state == st.(votes := h.state.votes, cache := h.state.cache)
    // no path deletes a cache entry, and none but `post:<postId>` is written
    ensures st.cache.Keys <= h.state.cache.Keys
    ensures forall k :: k in h.state.cache && (body.Valid? ==> k != CacheKey(body.value.postId)) ==>
      k in st.cache && h.state.cache[k] == st.cache[k]
  {
    if session.None? then Handled(Response(UNAUTHORIZED, Text("Unauthorized")), st)
    else if body.NotJson? then Handled(Response(INTERNAL_ERROR, Text(VoteFailed)), st)
    else if body.Invalid? then Handled(Response(UNPROCESSABLE, Text("Invalid request data passed")), st)
    else if !st.dbOnline then Handled(Response(INTERNAL_ERROR, Text(VoteFailed)), st)
    else
      var u, p, t := session.value, body.value.postId, body.value.voteType;
      var existing := FindVote(st.votes, u, p);
      var post := FindPost(st.posts, p);
      if post.None? then Handled(Response(NOT_FOUND, Text("Post not found")), st)
      else
        // post.votes, as read together with the post, before any change
        var votesAmt := Score(VotesOf(st.votes, p));
        if existing.Some? then
          if existing.value.voteType == t then
            Handled(Response(OK, Text("OK")), st.(votes := RemoveKey(st.votes, u, p)))
          else
            CacheWriteBack(st.(votes := SetType(st.votes, u, p, t)), post.value, p, t, votesAmt, OK)
        else
          CacheWriteBack(st.(votes := st.votes + [Vote(u, p, t)]), post.value, p, t, votesAmt, CREATED)
  }

  /**
   * The transition table: no vote creates one (201), the same vote deletes it
   * (200), the other vote retypes it (200). A 500 on the create and retype paths
   * comes only from the cache write, after the ledger change, which is kept.
   */
  lemma TransitionTable(st: DbState, u: UserId, req: VoteRequest)
    requires Ready(st, Some(u), Valid(req))
    ensures var h := PatchStep(st, Some(u), Valid(req));
      var (p, t) := (req.postId, req.voteType);
      match Lookup(st.votes, u, p)
      case None =>
        h.state.votes == st.votes + [Vote(u, p, t)] && h.response.status in {CREATED, INTERNAL_ERROR}
      case Some(prior) =>
        if prior == t then h.state.votes == RemoveKey(st.votes, u, p) && h.response.status == OK
        else h.state.votes == SetType(st.votes, u, p, t) && h.response.status in {OK, INTERNAL_ERROR}
  {
  }

  /** After the request the user holds the requested vote, or none after a toggle-off. */
  lemma ResultingVote(st: DbState, u: UserId, req: VoteRequest)
    requires Consistent(st) && Ready(st, Some(u), Valid(req))
    ensures var h := PatchStep(st, Some(u), Valid(req));
      Lookup(h.state.votes, u, req.postId)
        == if Lookup(st.votes, u, req.postId) == Some(req.voteType) then None else Some(req.voteType)
  {
    var h := PatchStep(st, Some(u), Valid(req));
    var (p, t) := (req.postId, req.voteType);
    match Lookup(st.votes, u, p)
    case None =>
      UniqueAfterCreate(st.votes, Vote(u, p, t));
      LookupMeansRow(h.state.votes, u, p, t);
    case Some(prior) =>
      if prior == t {
        assert !HasKey(h.state.votes, u, p);
      } else {
        UniqueAfterSetType(st.votes, u, p, t);
        LookupMeansRow(h.state.votes, u, p, t);
      }
  }

  /** At most one vote per (user, post) is ever kept: the handler preserves the unique key. */
  lemma KeepsVoteKeyUnique(st: DbState, session: Option<UserId>, body: Body<VoteRequest>)
    requires Consistent(st)
    ensures Consistent(PatchStep(st, session, body).state)
  {
    if Ready(st, session, body) {
      var u, p, t := session.value, body.value.postId, body.value.voteType;
      TransitionTable(st, u, body.value);
      match Lookup(st.votes, u, p)
      case None => UniqueAfterCreate(st.votes, Vote(u, p, t));
      case Some(prior) =>
        if prior == t {
          UniqueAfterRemove(st.votes, u, p);
        } else {
          UniqueAfterSetType(st.votes, u, p, t);
        }
    }
  }

  /** No other user's vote and no other post's votes are touched. */
  lemma OtherVotesUntouched(st: DbState, u: UserId, req: VoteRequest)
    requires Consistent(st) && Ready(st, Some(u), Valid(req))
    ensures var h := PatchStep(st, Some(u), Valid(req));
      && (forall u', p' :: !(u' == u && p' == req.postId) ==>
            Lookup(h.state.votes, u', p') == Lookup(st.votes, u', p'))
      && (forall q :: q != req.postId ==> VotesOf(h.state.votes, q) == VotesOf(st.votes, q))
  {
    var h := PatchStep(st, Some(u), Valid(req));
    var (p, t) := (req.postId, req.voteType);
    TransitionTable(st, u, req);
    forall u', p' | !(u' == u && p' == p)
      ensures Lookup(h.state.votes, u', p') == Lookup(st.votes, u', p')
    {
      OtherKeysUntouched(st.votes, u, p, t, u', p');
    }
    forall q | q != p
      ensures VotesOf(h.state.votes, q) == VotesOf(st.votes, q)
    {
      OtherPostsUntouched(st.votes, u, p, t, q);
    }
  }

  /**
   * The cache entry `post:<id>` is written exactly when the path is not a
   * toggle-off and the score read before the change is at least the threshold
   * (and the cache is reachable); the snapshot carries the requested vote.
   * Otherwise the cache is left as it was, never cleared.
   */
  lemma CachePolicy(st: DbState, u: UserId, req: VoteRequest)
    requires Ready(st, Some(u), Valid(req))
    ensures var h := PatchStep(st, Some(u), Valid(req));
      var (p, t) := (req.postId, req.voteType);
      var post := FindPost(st.posts, p).value;
      var promoted := Lookup(st.votes, u, p) != Some(t) && Score(VotesOf(st.votes, p)) >= CacheAfterUpvotes;
      && h.state.cache == (if promoted && st.cacheOnline then st.cache[CacheKey(p) := Snapshot(st.users, post, t)] else st.cache)
      && (h.response.status == INTERNAL_ERROR <==> promoted && !st.cacheOnline)
  {
  }

  /**
   * The score that gates the cache write is the one before the change: the
   * post's true score afterwards differs from it by exactly the change applied.
   */
  lemma GateScoreIsOneChangeBehind(st: DbState, u: UserId, req: VoteRequest)
    requires Consistent(st) && Ready(st, Some(u), Valid(req))
    ensures var h := PatchStep(st, Some(u), Valid(req));
      var (p, t) := (req.postId, req.voteType);
      Score(VotesOf(h.state.votes, p))
        == Score(VotesOf(st.votes, p)) + OptWeight(Lookup(h.state.votes, u, p)) - OptWeight(Lookup(st.votes, u, p))
  {
    var (p, t) := (req.postId, req.voteType);
    TransitionTable(st, u, req);
    ResultingVote(st, u, req);
    match Lookup(st.votes, u, p)
    case None =>
      ScoreAfterCreate(st.votes, Vote(u, p, t));
    case Some(prior) =>
      if prior == t {
        ScoreAfterRemove(st.votes, u, p, prior);
      } else {
        ScoreAfterSetType(st.votes, u, p, prior, t);
      }
  }

  /**
   * The first upvote on a post with no votes makes its score 1, yet the cache is
   * not written: the gate saw the score 0 read before the vote was created.
   */
  lemma FirstUpvoteNotCached(st: DbState, u: UserId, p: PostId)
    requires Consistent(st) && Ready(st, Some(u), Valid(VoteRequest(p, UP))) && VotesOf(st.votes, p) == []
    ensures var h := PatchStep(st, Some(u), Valid(VoteRequest(p, UP)));
      && h.response.status == CREATED
      && Score(VotesOf(h.state.votes, p)) == 1
      && h.state.cache == st.cache
  {
    assert !HasKey(st.votes, u, p) by {
      assert forall v :: v in st.votes && v.postId == p ==> v in VotesOf(st.votes, p);
    }
    TransitionTable(st, u, VoteRequest(p, UP));
    CachePolicy(st, u, VoteRequest(p, UP));
    ScoreAfterCreate(st.votes, Vote(u, p, UP));
  }

  /**
   * Voting twice with the same type on a post the user had not voted on restores
   * the vote table exactly, so the score returns to its value before the first
   * vote; the second request writes no cache entry, so whatever the first one
   * cached stays there.
   */
  lemma SameVoteTwiceRestoresLedger(st: DbState, u: UserId, req: VoteRequest)
    requires Consistent(st) && Ready(st, Some(u), Valid(req)) && Lookup(st.votes, u, req.postId).None?
    ensures var h1 := PatchStep(st, Some(u), Valid(req));
      var h2 := PatchStep(h1.state, Some(u), Valid(req));
      && h2.response.status == OK
      && h2.state.votes == st.votes
      && Score(VotesOf(h2.state.votes, req.postId)) == Score(VotesOf(st.votes, req.postId))
      && h2.state.cache == h1.state.cache
  {
    var h1 := PatchStep(st, Some(u), Valid(req));
    var v := Vote(u, req.postId, req.voteType);
    UniqueAfterCreate(st.votes, v);
    LookupMeansRow(h1.state.votes, u, req.postId, req.voteType);
    RemoveKeySnoc(st.votes, v, u, req.postId);
    RemoveAbsentKey(st.votes, u, req.postId);
  }

  /**
   * Switching from the opposite vote leaves the requested vote and moves the
   * post's score by twice its weight.
   */
  lemma SwitchMovesScoreByTwo(st: DbState, u: UserId, req: VoteRequest)
    requires Consistent(st) && Ready(st, Some(u), Valid(req))
    requires Lookup(st.votes, u, req.postId) == Some(Opposite(req.voteType))
    ensures var h := PatchStep(st, Some(u), Valid(req));
      && Lookup(h.state.votes, u, req.postId) == Some(req.voteType)
      && Score(VotesOf(h.state.votes, req.postId)) == Score(VotesOf(st.votes, req.postId)) + 2 * Weight(req.voteType)
  {
    ResultingVote(st, u, req);
    GateScoreIsOneChangeBehind(st, u, req);
  }

  /**
   * Voting UP and then DOWN leaves exactly one vote, of type DOWN, and the
   * post's score 2 below its value after the UP.
   */
  lemma UpThenDown(st: DbState, u: UserId, p: PostId)
    requires Consistent(st) && Ready(st, Some(u), Valid(VoteRequest(p, UP))) && Lookup(st.votes, u, p).None?
    ensures var h1 := PatchStep(st, Some(u), Valid(VoteRequest(p, UP)));
      var h2 := PatchStep(h1.state, Some(u), Valid(VoteRequest(p, DOWN)));
      && Lookup(h2.state.votes, u, p) == Some(DOWN)
      && Score(VotesOf(h2.state.votes, p)) == Score(VotesOf(h1.state.votes, p)) - 2
  {
    var s1 := PatchStep(st, Some(u), Valid(VoteRequest(p, UP))).state;
    KeepsVoteKeyUnique(st, Some(u), Valid(VoteRequest(p, UP)));
    ResultingVote(st, u, VoteRequest(p, UP));
    assert s1.dbOnline && s1.posts == st.posts;
    SwitchMovesScoreByTwo(s1, u, VoteRequest(p, DOWN));
  }

  /** The handler on the store: each guard in the source's order, then the ledger change and the cache write. */
  method Patch(db: Db, session: Option<UserId>, body: Body<VoteRequest>) returns (res: Response)
    modifies db
    ensures Handled(res, db.State()) == PatchStep(old(db.State()), session, body)
  {
    if session.None? {
      return Response(UNAUTHORIZED, Text("Unauthorized"));
    }
    if body.NotJson? {
      return Response(INTERNAL_ERROR, Text(VoteFailed));
    }
    if body.Invalid? {
      return Response(UNPROCESSABLE, Text("Invalid request data passed"));
    }
    if !db.dbOnline {
      return Response(INTERNAL_ERROR, Text(VoteFailed));
    }
    var u, p, t := session.value, body.value.postId, body.value.voteType;
    var existingVote := FindVote(db.votes, u, p);
    var post := FindPost(db.posts, p);
    if post.None? {
      return Response(NOT_FOUND, Text("Post not found"));
    }
    var postVotes := VotesOf(db.votes, p);
    var status;
    if existingVote.Some? {
      if existingVote.value.voteType == t {
        db.votes := RemoveKey(db.votes, u, p);
        return Response(OK, Text("OK"));
      }
      db.votes := SetType(db.votes, u, p, t);
      status := OK;
    } else {
      db.votes := db.votes + [Vote(u, p, t)];
      status := CREATED;
    }
    var votesAmt := Score(postVotes);
    if votesAmt >= CacheAfterUpvotes {
      if !db.cacheOnline {
        return Response(INTERNAL_ERROR, Text(VoteFailed));
      }
      db.cache := db.cache[CacheKey(p) := Snapshot(db.users, post.value, t)];
    }
    res := Response(status, Text("OK"));
  }
}
