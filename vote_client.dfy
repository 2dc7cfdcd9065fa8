/**
 * The client-side vote controller of one post: the vote the viewer holds and
 * the score on display. A click predicts the outcome at once (onMutate); a
 * failed request rolls the prediction back (onError). The buttons are
 * disabled while a request is in flight.
 */
module VoteClient {
  import opened Domain

  /** What the controller displays: the viewer's vote (none for undefined or null) and the score. */
  datatype View = View(currentVote: Option<VoteType>, votesAmt: int)

  /**
   * onMutate: clicking the vote held clears it, any other click sets it; the
   * score moves by the difference between the weights of the new and old vote.
   */
  function Predict(v: View, t: VoteType): (r: View)
    ensures v.currentVote.None? ==> r == View(Some(t), v.votesAmt + Weight(t))
    ensures v.currentVote == Some(t) ==> r == View(None, v.votesAmt - Weight(t))
    ensures v.currentVote == Some(Opposite(t)) ==> r == View(Some(t), v.votesAmt + 2 * Weight(t))
    // the score less the viewer's own vote is what every prediction keeps
    ensures r.votesAmt - OptWeight(r.currentVote) == v.votesAmt - OptWeight(v.currentVote)
  {
    if v.currentVote == Some(t) then
      View(None, if t == UP then v.votesAmt - 1 else v.votesAmt + 1)
    else
      var step := if v.currentVote.Some? then 2 else 1;
      View(Some(t), if t == UP then v.votesAmt + step else v.votesAmt - step)
  }

  /** onError as written: restore the previous vote and move the score by one against t. */
  function RollbackAsWritten(v: View, prevVote: Option<VoteType>, t: VoteType): (r: View)
    ensures r.currentVote == prevVote
    ensures r.votesAmt == v.votesAmt - Weight(t)
  {
    View(prevVote, if t == UP then v.votesAmt - 1 else v.votesAmt + 1)
  }

  /**
   * A prediction followed by the rollback as written brings back the state it
   * started from exactly when no vote was held; otherwise the score drifts by
   * -2 after a toggle-off and by one after a switch, in the clicked direction.
   */
  lemma RollbackRestoresOnlyFromNoVote(v: View, t: VoteType)
    ensures RollbackAsWritten(Predict(v, t), v.currentVote, t) == v <==> v.currentVote.None?
    ensures RollbackAsWritten(Predict(v, t), v.currentVote, t).votesAmt
      == v.votesAmt + (if v.currentVote == Some(t) then -2 * Weight(t)
                       else if v.currentVote.Some? then Weight(t) else 0)
  {
    match v.currentVote
    case None =>
    case Some(held) =>
      if held != t {
        assert held == Opposite(t) by { assert held == UP || held == DOWN; }
      }
  }

  /** A concrete case: holding UP at score 5, click UP, request fails; the display shows UP at 3. */
  lemma ToggleOffRollbackDrifts()
    ensures RollbackAsWritten(Predict(View(Some(UP), 5), UP), Some(UP), UP) == View(Some(UP), 3)
  {
  }

  /** The client-side scenario from no vote: score 5, click UP shows 6, a failure shows 5 again with no vote. */
  lemma NoVoteRollbackRestores()
    ensures Predict(View(None, 5), UP) == View(Some(UP), 6)
    ensures RollbackAsWritten(View(Some(UP), 6), None, UP) == View(None, 5)
  {
  }

  /** The rollback the prediction calls for: put back the vote held before and undo its score change. */
  function Restore(v: View, prevVote: Option<VoteType>): (r: View)
    ensures r.currentVote == prevVote
    ensures r.votesAmt - OptWeight(r.currentVote) == v.votesAmt - OptWeight(v.currentVote)
  {
    View(prevVote, v.votesAmt - OptWeight(v.currentVote) + OptWeight(prevVote))
  }

  /** Restore undoes every prediction, from every starting vote. */
  lemma RestoreInvertsPredict(v: View, t: VoteType)
    ensures Restore(Predict(v, t), v.currentVote) == v
  {
  }

  class PostVoteClient {
    var votesAmt: int
    var currentVote: Option<VoteType>
    /** The vote held before the latest prediction (usePrevious). */
    var prevVote: Option<VoteType>
    /** The vote type of the request in flight, if any (isLoading). */
    var inFlight: Option<VoteType>

    function Shown(): View
      reads this
    {
      View(currentVote, votesAmt)
    }

    constructor (initialVoteAmount: int, initialVote: Option<VoteType>)
      ensures Shown() == View(initialVote, initialVoteAmount)
      ensures prevVote.None? && inFlight.None?
    {
      votesAmt := initialVoteAmount;
      currentVote := initialVote;
      prevVote := None;
      inFlight := None;
    }

    /** The effect on a changed initialVote prop: the vote is reset, the score is not. */
    method SyncInitialVote(initialVote: Option<VoteType>)
      modifies this
      ensures currentVote == initialVote
      ensures votesAmt == old(votesAmt) && prevVote == old(prevVote) && inFlight == old(inFlight)
    {
      currentVote := initialVote;
    }

    method OnMutate(t: VoteType)
      modifies this
      ensures Shown() == Predict(old(Shown()), t)
      ensures prevVote == old(prevVote) && inFlight == old(inFlight)
    {
      if currentVote == Some(t) {
        currentVote := None;
        if t == UP {
          votesAmt := votesAmt - 1;
        } else {
          votesAmt := votesAmt + 1;
        }
      } else {
        var held := currentVote;
        currentVote := Some(t);
        if t == UP {
          votesAmt := votesAmt + (if held.Some? then 2 else 1);
        } else {
          votesAmt := votesAmt - (if held.Some? then 2 else 1);
        }
      }
    }

    method OnError(t: VoteType)
      modifies this
      ensures Shown() == RollbackAsWritten(old(Shown()), old(prevVote), t)
      ensures prevVote == old(prevVote) && inFlight == old(inFlight)
    {
      if t == UP {
        votesAmt := votesAmt - 1;
      } else {
        votesAmt := votesAmt + 1;
      }
      currentVote := prevVote;
    }

    /**
     * A click on a vote button. While a request is in flight both buttons are
     * disabled and nothing happens; otherwise the prediction is applied and the
     * request is sent, so at most one request is ever outstanding.
     */
    method Click(t: VoteType) returns (sent: bool)
      modifies this
      ensures sent <==> old(inFlight).None?
      ensures !sent ==> Shown() == old(Shown()) && prevVote == old(prevVote) && inFlight == old(inFlight)
      ensures sent ==> Shown() == Predict(old(Shown()), t) && prevVote == old(currentVote) && inFlight == Some(t)
    {
      if inFlight.Some? {
        return false;
      }
      prevVote := currentVote;
      OnMutate(t);
      inFlight := Some(t);
      sent := true;
    }

    /** The outcome of the request in flight: success keeps the prediction, failure rolls it back. */
    method Settle(succeeded: bool)
      modifies this
      ensures old(inFlight).None? ==> Shown() == old(Shown()) && inFlight.None?
      ensures old(inFlight).Some? && succeeded ==> Shown() == old(Shown()) && inFlight.None?
      ensures old(inFlight).Some? && !succeeded ==>
        Shown() == RollbackAsWritten(old(Shown()), old(prevVote), old(inFlight).value) && inFlight.None?
      ensures prevVote == old(prevVote)
    {
      if inFlight.Some? && !succeeded {
        OnError(inFlight.value);
      }
      inFlight := None;
    }
  }

  /** Clicking and then failing, on a fresh controller with no vote, shows the initial state again. */
  method ClickAndFailFromNoVote(initialVoteAmount: int, t: VoteType) returns (shown: View)
    ensures shown == View(None, initialVoteAmount)
  {
    var c := new PostVoteClient(initialVoteAmount, None);
    var sent := c.Click(t);
    c.Settle(false);
    shown := c.Shown();
  }
}
