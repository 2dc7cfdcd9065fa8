/**
 * The score of a post: the fold over its votes that adds 1 for every UP and
 * subtracts 1 for every DOWN, starting from 0. The vote handler, the feed and
 * the server-side vote component all compute it with the same `reduce`.
 */
module VoteScore {
  import opened Domain

  /** `votes.reduce((acc, vote) => acc +/- 1, 0)`: a left fold, so the last vote is added last. */
  function Score(votes: seq<Vote>): (s: int)
    ensures -|votes| <= s <= |votes|
    ensures votes == [] ==> s == 0
    decreases |votes|
  {
    if |votes| == 0 then 0
    else Score(votes[..|votes| - 1]) + Weight(votes[|votes| - 1].voteType)
  }

  lemma ScoreSingleton(v: Vote)
    ensures Score([v]) == Weight(v.voteType)
  {
    assert [v][..0] == [];
  }

  /** Folding a concatenation is adding the folds of its parts. */
  lemma {:induction false} ScoreAppend(a: seq<Vote>, b: seq<Vote>)
    ensures Score(a + b) == Score(a) + Score(b)
    decreases |b|
  {
    if b == [] {
      assert a + b == a;
    } else {
      var b' := b[..|b| - 1];
      assert (a + b)[..|a + b| - 1] == a + b';
      assert (a + b)[|a + b| - 1] == b[|b| - 1];
      ScoreAppend(a, b');
    }
  }

  /** Removing the vote at index j takes its weight out of the score. */
  lemma {:induction false} ScoreWithout(b: seq<Vote>, j: nat)
    requires j < |b|
    ensures Score(b) == Score(b[..j] + b[j + 1..]) + Weight(b[j].voteType)
  {
    var left, x, right := b[..j], b[j], b[j + 1..];
    assert b == (left + [x]) + right;
    ScoreAppend(left + [x], right);
    ScoreAppend(left, [x]);
    ScoreSingleton(x);
    ScoreAppend(left, right);
  }

  /**
   * The score does not depend on the order of the votes: any two lists holding
   * the same votes, however ordered, have the same score.
   */
  lemma {:induction false} ScorePermutation(a: seq<Vote>, b: seq<Vote>)
    requires multiset(a) == multiset(b)
    ensures Score(a) == Score(b)
    decreases |a|
  {
    if |a| == 0 {
      assert |b| == |multiset(b)| == 0;
    } else {
      var a' := a[..|a| - 1];
      var x := a[|a| - 1];
      assert a == a' + [x];
      assert x in multiset(b);
      var j :| 0 <= j < |b| && b[j] == x;
      var b' := b[..j] + b[j + 1..];
      assert b == b[..j] + [x] + b[j + 1..];
      assert multiset(b) == multiset(b[..j]) + multiset{x} + multiset(b[j + 1..]);
      assert multiset(b') == multiset(b[..j]) + multiset(b[j + 1..]);
      assert multiset(a) == multiset(a') + multiset{x};
      calc {
        multiset(a');
        multiset(a) - multiset{x};
        multiset(b) - multiset{x};
        multiset(b');
      }
      ScorePermutation(a', b');
      ScoreWithout(b, j);
    }
  }
}
