/**
 * The vote table: one row per (userId, postId). Rows are kept in table order;
 * the queries and mutations the vote handler issues against it are modelled
 * here, with what each does to the rows, to the uniqueness of the key and to
 * the score of the post.
 */
module VoteLedger {
  import opened Domain
  import opened VoteScore

  /** Some row of the table has key (u, p). */
  predicate HasKey(votes: seq<Vote>, u: UserId, p: PostId)
  {
    exists v :: v in votes && v.userId == u && v.postId == p
  }

  /** No two rows share a (userId, postId) key. */
  predicate Unique(votes: seq<Vote>)
    decreases |votes|
  {
    |votes| == 0 ||
    (var last := votes[|votes| - 1];
     Unique(votes[..|votes| - 1]) && !HasKey(votes[..|votes| - 1], last.userId, last.postId))
  }

  /** `db.vote.findFirst({ where: { userId, postId } })`: the first row with that key. */
  function FindVote(votes: seq<Vote>, u: UserId, p: PostId): (r: Option<Vote>)
    ensures r.Some? ==> r.value in votes && r.value.userId == u && r.value.postId == p
    ensures r.None? <==> !HasKey(votes, u, p)
  {
    if |votes| == 0 then None
    else if votes[0].userId == u && votes[0].postId == p then Some(votes[0])
    else
      assert forall v :: v in votes ==> v == votes[0] || v in votes[1..];
      FindVote(votes[1..], u, p)
  }

  /** The vote type a user holds on a post, if any: the map view of the table. */
  function Lookup(votes: seq<Vote>, u: UserId, p: PostId): (r: Option<VoteType>)
    ensures r.Some? <==> HasKey(votes, u, p)
    ensures r.Some? ==> Vote(u, p, r.value) in votes
  {
    match FindVote(votes, u, p)
    case None => None
    case Some(v) => Some(v.voteType)
  }

  /** The votes of one post, in table order: what `include: { votes: true }` reads. */
  function VotesOf(votes: seq<Vote>, p: PostId): (r: seq<Vote>)
    ensures forall v :: v in r <==> v in votes && v.postId == p
    ensures |r| <= |votes|
    decreases |votes|
  {
    if |votes| == 0 then []
    else
      var last := votes[|votes| - 1];
      assert forall v :: v in votes <==> v in votes[..|votes| - 1] || v == last;
      VotesOf(votes[..|votes| - 1], p) + (if last.postId == p then [last] else [])
  }

  /** `db.vote.delete({ where: { userId_postId } })`: drop the row with that key. */
  function RemoveKey(votes: seq<Vote>, u: UserId, p: PostId): (r: seq<Vote>)
    ensures forall v :: v in r <==> v in votes && !(v.userId == u && v.postId == p)
    decreases |votes|
  {
    if |votes| == 0 then []
    else
      var last := votes[|votes| - 1];
      assert forall v :: v in votes <==> v in votes[..|votes| - 1] || v == last;
      RemoveKey(votes[..|votes| - 1], u, p)
      + (if last.userId == u && last.postId == p then [] else [last])
  }

  /** `db.vote.update({ where: { userId_postId }, data: { type } })`: retype the row with that key. */
  function SetType(votes: seq<Vote>, u: UserId, p: PostId, t: VoteType): (r: seq<Vote>)
    ensures |r| == |votes|
    ensures forall v :: v in r <==>
      (v in votes && !(v.userId == u && v.postId == p))
      || (v == Vote(u, p, t) && HasKey(votes, u, p))
    ensures forall a, b :: HasKey(r, a, b) <==> HasKey(votes, a, b)
    decreases |votes|
  {
    if |votes| == 0 then []
    else
      var last := votes[|votes| - 1];
      assert forall v :: v in votes <==> v in votes[..|votes| - 1] || v == last;
      SetType(votes[..|votes| - 1], u, p, t)
      + [if last.userId == u && last.postId == p then last.(voteType := t) else last]
  }

  /** Under the unique key, a row is determined by its key. */
  lemma {:induction false} KeyDetermines(votes: seq<Vote>, v: Vote, w: Vote)
    requires Unique(votes) && v in votes && w in votes
    requires v.userId == w.userId && v.postId == w.postId
    ensures v == w
    decreases |votes|
  {
    var init := votes[..|votes| - 1];
    var last := votes[|votes| - 1];
    assert votes == init + [last];
    if v != last && w != last {
      KeyDetermines(init, v, w);
    } else if v != w {
      assert false;
    }
  }

  /** Under the unique key, the map view holds exactly the rows of the table. */
  lemma LookupMeansRow(votes: seq<Vote>, u: UserId, p: PostId, t: VoteType)
    requires Unique(votes)
    ensures Lookup(votes, u, p) == Some(t) <==> Vote(u, p, t) in votes
  {
    if Vote(u, p, t) in votes {
      var r := FindVote(votes, u, p);
      assert r.Some?;
      KeyDetermines(votes, r.value, Vote(u, p, t));
    }
  }

  lemma VotesOfSnoc(votes: seq<Vote>, x: Vote, p: PostId)
    ensures VotesOf(votes + [x], p) == VotesOf(votes, p) + (if x.postId == p then [x] else [])
  {
    assert (votes + [x])[..|votes|] == votes;
  }

  lemma RemoveKeySnoc(votes: seq<Vote>, x: Vote, u: UserId, p: PostId)
    ensures RemoveKey(votes + [x], u, p)
      == RemoveKey(votes, u, p) + (if x.userId == u && x.postId == p then [] else [x])
  {
    assert (votes + [x])[..|votes|] == votes;
  }

  lemma SetTypeSnoc(votes: seq<Vote>, x: Vote, u: UserId, p: PostId, t: VoteType)
    ensures SetType(votes + [x], u, p, t)
      == SetType(votes, u, p, t) + [if x.userId == u && x.postId == p then x.(voteType := t) else x]
  {
    assert (votes + [x])[..|votes|] == votes;
  }

  lemma UniqueSnoc(votes: seq<Vote>, x: Vote)
    ensures Unique(votes + [x]) <==> Unique(votes) && !HasKey(votes, x.userId, x.postId)
  {
    assert (votes + [x])[..|votes|] == votes;
  }

  /** Appending a row whose key is absent keeps the key unique. */
  lemma UniqueAfterCreate(votes: seq<Vote>, v: Vote)
    requires Unique(votes) && !HasKey(votes, v.userId, v.postId)
    ensures Unique(votes + [v])
  {
    UniqueSnoc(votes, v);
  }

  /** Deleting by key keeps the key unique. */
  lemma {:induction false} UniqueAfterRemove(votes: seq<Vote>, u: UserId, p: PostId)
    requires Unique(votes)
    ensures Unique(RemoveKey(votes, u, p))
    decreases |votes|
  {
    if |votes| > 0 {
      var init := votes[..|votes| - 1];
      var last := votes[|votes| - 1];
      assert votes == init + [last];
      UniqueSnoc(init, last);
      UniqueAfterRemove(init, u, p);
      RemoveKeySnoc(init, last, u, p);
      if !(last.userId == u && last.postId == p) {
        assert !HasKey(RemoveKey(init, u, p), last.userId, last.postId);
        UniqueSnoc(RemoveKey(init, u, p), last);
      } else {
        assert RemoveKey(votes, u, p) == RemoveKey(init, u, p);
      }
    }
  }

  /** Retyping by key keeps the key unique. */
  lemma {:induction false} UniqueAfterSetType(votes: seq<Vote>, u: UserId, p: PostId, t: VoteType)
    requires Unique(votes)
    ensures Unique(SetType(votes, u, p, t))
    decreases |votes|
  {
    if |votes| > 0 {
      var init := votes[..|votes| - 1];
      var last := votes[|votes| - 1];
      assert votes == init + [last];
      UniqueSnoc(init, last);
      UniqueAfterSetType(init, u, p, t);
      SetTypeSnoc(init, last, u, p, t);
      var x := if last.userId == u && last.postId == p then last.(voteType := t) else last;
      assert !HasKey(SetType(init, u, p, t), x.userId, x.postId);
      UniqueSnoc(SetType(init, u, p, t), x);
    }
  }

  /** Creating a vote adds its weight to the score of its post. */
  lemma ScoreAfterCreate(votes: seq<Vote>, v: Vote)
    ensures VotesOf(votes + [v], v.postId) == VotesOf(votes, v.postId) + [v]
    ensures Score(VotesOf(votes + [v], v.postId)) == Score(VotesOf(votes, v.postId)) + Weight(v.voteType)
  {
    VotesOfSnoc(votes, v, v.postId);
    ScoreAppend(VotesOf(votes, v.postId), [v]);
    ScoreSingleton(v);
  }

  /** Deleting a key that no row has leaves the table as it was. */
  lemma {:induction false} RemoveAbsentKey(votes: seq<Vote>, u: UserId, p: PostId)
    requires !HasKey(votes, u, p)
    ensures RemoveKey(votes, u, p) == votes
    decreases |votes|
  {
    if |votes| > 0 {
      var init := votes[..|votes| - 1];
      var last := votes[|votes| - 1];
      assert votes == init + [last];
      assert forall v :: v in init ==> v in votes;
      RemoveAbsentKey(init, u, p);
      RemoveKeySnoc(init, last, u, p);
    }
  }

  /** Retyping a key that no row has leaves the table as it was. */
  lemma {:induction false} SetTypeAbsentKey(votes: seq<Vote>, u: UserId, p: PostId, t: VoteType)
    requires !HasKey(votes, u, p)
    ensures SetType(votes, u, p, t) == votes
    decreases |votes|
  {
    if |votes| > 0 {
      var init := votes[..|votes| - 1];
      var last := votes[|votes| - 1];
      assert votes == init + [last];
      assert forall v :: v in init ==> v in votes;
      SetTypeAbsentKey(init, u, p, t);
      SetTypeSnoc(init, last, u, p, t);
    }
  }

  /** Deleting the (u, p) row, of type t, takes its weight out of the score of p. */
  lemma {:induction false} ScoreAfterRemove(votes: seq<Vote>, u: UserId, p: PostId, t: VoteType)
    requires Unique(votes) && Vote(u, p, t) in votes
    ensures Score(VotesOf(RemoveKey(votes, u, p), p)) == Score(VotesOf(votes, p)) - Weight(t)
    decreases |votes|
  {
    var init := votes[..|votes| - 1];
    var last := votes[|votes| - 1];
    assert votes == init + [last];
    UniqueSnoc(init, last);
    if last.userId == u && last.postId == p {
      KeyDetermines(votes, last, Vote(u, p, t));
      RemoveLastRow(init, last);
    } else {
      assert Vote(u, p, t) in init;
      ScoreAfterRemove(init, u, p, t);
      RemoveEarlierRow(init, last, u, p);
    }
  }

  /** The removal step when the row removed is the last one. */
  lemma RemoveLastRow(init: seq<Vote>, last: Vote)
    requires !HasKey(init, last.userId, last.postId)
    ensures Score(VotesOf(RemoveKey(init + [last], last.userId, last.postId), last.postId))
      == Score(VotesOf(init + [last], last.postId)) - Weight(last.voteType)
  {
    var u, p := last.userId, last.postId;
    assert RemoveKey(init + [last], u, p) == init by {
      RemoveKeySnoc(init, last, u, p);
      RemoveAbsentKey(init, u, p);
    }
    assert Score(VotesOf(init + [last], p)) == Score(VotesOf(init, p)) + Weight(last.voteType) by {
      VotesOfSnoc(init, last, p);
      ScoreAppend(VotesOf(init, p), [last]);
      ScoreSingleton(last);
    }
  }

  /** The removal step when the row removed is not the last one. */
  lemma RemoveEarlierRow(init: seq<Vote>, last: Vote, u: UserId, p: PostId)
    requires !(last.userId == u && last.postId == p)
    ensures Score(VotesOf(RemoveKey(init + [last], u, p), p)) - Score(VotesOf(init + [last], p))
      == Score(VotesOf(RemoveKey(init, u, p), p)) - Score(VotesOf(init, p))
  {
    RemoveKeySnoc(init, last, u, p);
    VotesOfSnoc(init, last, p);
    VotesOfSnoc(RemoveKey(init, u, p), last, p);
    var tail := if last.postId == p then [last] else [];
    ScoreAppend(VotesOf(RemoveKey(init, u, p), p), tail);
    ScoreAppend(VotesOf(init, p), tail);
  }

  /** Retyping the (u, p) row from t to t' changes the score of p by the difference of the weights. */
  lemma {:induction false} ScoreAfterSetType(votes: seq<Vote>, u: UserId, p: PostId, t: VoteType, t': VoteType)
    requires Unique(votes) && Vote(u, p, t) in votes
    ensures Score(VotesOf(SetType(votes, u, p, t'), p)) == Score(VotesOf(votes, p)) - Weight(t) + Weight(t')
    decreases |votes|
  {
    var init := votes[..|votes| - 1];
    var last := votes[|votes| - 1];
    assert votes == init + [last];
    UniqueSnoc(init, last);
    if last.userId == u && last.postId == p {
      KeyDetermines(votes, last, Vote(u, p, t));
      RetypeLastRow(init, last, t');
    } else {
      assert Vote(u, p, t) in init;
      ScoreAfterSetType(init, u, p, t, t');
      RetypeEarlierRow(init, last, u, p, t');
    }
  }

  /** The retyping step when the row retyped is the last one. */
  lemma RetypeLastRow(init: seq<Vote>, last: Vote, t': VoteType)
    requires !HasKey(init, last.userId, last.postId)
    ensures Score(VotesOf(SetType(init + [last], last.userId, last.postId, t'), last.postId))
      == Score(VotesOf(init + [last], last.postId)) - Weight(last.voteType) + Weight(t')
  {
    var u, p := last.userId, last.postId;
    assert SetType(init + [last], u, p, t') == init + [Vote(u, p, t')] by {
      SetTypeSnoc(init, last, u, p, t');
      SetTypeAbsentKey(init, u, p, t');
    }
    assert Score(VotesOf(init + [last], p)) == Score(VotesOf(init, p)) + Weight(last.voteType) by {
      VotesOfSnoc(init, last, p);
      ScoreAppend(VotesOf(init, p), [last]);
      ScoreSingleton(last);
    }
    assert Score(VotesOf(init + [Vote(u, p, t')], p)) == Score(VotesOf(init, p)) + Weight(t') by {
      VotesOfSnoc(init, Vote(u, p, t'), p);
      ScoreAppend(VotesOf(init, p), [Vote(u, p, t')]);
      ScoreSingleton(Vote(u, p, t'));
    }
  }

  /** The retyping step when the row retyped is not the last one. */
  lemma RetypeEarlierRow(init: seq<Vote>, last: Vote, u: UserId, p: PostId, t': VoteType)
    requires !(last.userId == u && last.postId == p)
    ensures Score(VotesOf(SetType(init + [last], u, p, t'), p)) - Score(VotesOf(init + [last], p))
      == Score(VotesOf(SetType(init, u, p, t'), p)) - Score(VotesOf(init, p))
  {
    var tail := if last.postId == p then [last] else [];
    assert SetType(init + [last], u, p, t') == SetType(init, u, p, t') + [last] by {
      SetTypeSnoc(init, last, u, p, t');
    }
    assert Score(VotesOf(SetType(init, u, p, t') + [last], p))
      == Score(VotesOf(SetType(init, u, p, t'), p)) + Score(tail) by {
      VotesOfSnoc(SetType(init, u, p, t'), last, p);
      ScoreAppend(VotesOf(SetType(init, u, p, t'), p), tail);
    }
    assert Score(VotesOf(init + [last], p)) == Score(VotesOf(init, p)) + Score(tail) by {
      VotesOfSnoc(init, last, p);
      ScoreAppend(VotesOf(init, p), tail);
    }
  }

  /** Mutations keyed on post p leave every other post's votes as they were. */
  lemma OtherPostsUntouched(votes: seq<Vote>, u: UserId, p: PostId, t: VoteType, q: PostId)
    requires q != p
    ensures VotesOf(RemoveKey(votes, u, p), q) == VotesOf(votes, q)
    ensures VotesOf(SetType(votes, u, p, t), q) == VotesOf(votes, q)
    ensures VotesOf(votes + [Vote(u, p, t)], q) == VotesOf(votes, q)
  {
    VotesOfSnoc(votes, Vote(u, p, t), q);
    RemoveKeyOtherPost(votes, u, p, q);
    SetTypeOtherPost(votes, u, p, t, q);
  }

  lemma {:induction false} RemoveKeyOtherPost(votes: seq<Vote>, u: UserId, p: PostId, q: PostId)
    requires q != p
    ensures VotesOf(RemoveKey(votes, u, p), q) == VotesOf(votes, q)
    decreases |votes|
  {
    if |votes| > 0 {
      var init := votes[..|votes| - 1];
      var last := votes[|votes| - 1];
      assert votes == init + [last];
      RemoveKeyOtherPost(init, u, p, q);
      RemoveKeySnoc(init, last, u, p);
      VotesOfSnoc(init, last, q);
      if !(last.userId == u && last.postId == p) {
        VotesOfSnoc(RemoveKey(init, u, p), last, q);
      } else {
        assert RemoveKey(votes, u, p) == RemoveKey(init, u, p);
      }
    }
  }

  lemma {:induction false} SetTypeOtherPost(votes: seq<Vote>, u: UserId, p: PostId, t: VoteType, q: PostId)
    requires q != p
    ensures VotesOf(SetType(votes, u, p, t), q) == VotesOf(votes, q)
    decreases |votes|
  {
    if |votes| > 0 {
      var init := votes[..|votes| - 1];
      var last := votes[|votes| - 1];
      assert votes == init + [last];
      SetTypeOtherPost(init, u, p, t, q);
      SetTypeSnoc(init, last, u, p, t);
      VotesOfSnoc(init, last, q);
      var x := if last.userId == u && last.postId == p then last.(voteType := t) else last;
      VotesOfSnoc(SetType(init, u, p, t), x, q);
    }
  }

  /** Every mutation keyed on (u, p) leaves the vote of every other (user, post) pair as it was. */
  lemma OtherKeysUntouched(votes: seq<Vote>, u: UserId, p: PostId, t: VoteType, u': UserId, p': PostId)
    requires Unique(votes)
    requires !(u' == u && p' == p)
    ensures Lookup(RemoveKey(votes, u, p), u', p') == Lookup(votes, u', p')
    ensures Lookup(SetType(votes, u, p, t), u', p') == Lookup(votes, u', p')
    ensures !HasKey(votes, u, p) ==> Lookup(votes + [Vote(u, p, t)], u', p') == Lookup(votes, u', p')
  {
    UniqueAfterRemove(votes, u, p);
    UniqueAfterSetType(votes, u, p, t);
    SameRowsSameLookup(votes, RemoveKey(votes, u, p), u', p');
    SameRowsSameLookup(votes, SetType(votes, u, p, t), u', p');
    if !HasKey(votes, u, p) {
      UniqueAfterCreate(votes, Vote(u, p, t));
      SameRowsSameLookup(votes, votes + [Vote(u, p, t)], u', p');
    }
  }

  /** Two tables with the unique key and the same (u, p) rows give the same lookup for (u, p). */
  lemma SameRowsSameLookup(a: seq<Vote>, b: seq<Vote>, u: UserId, p: PostId)
    requires Unique(a) && Unique(b)
    requires forall t :: Vote(u, p, t) in a <==> Vote(u, p, t) in b
    ensures Lookup(a, u, p) == Lookup(b, u, p)
  {
    LookupMeansRow(a, u, p, UP);
    LookupMeansRow(a, u, p, DOWN);
    LookupMeansRow(b, u, p, UP);
    LookupMeansRow(b, u, p, DOWN);
    match Lookup(a, u, p)
    case None =>
    case Some(t) => assert t == UP || t == DOWN;
  }
}
