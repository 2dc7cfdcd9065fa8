/**
 * The subscribe and unsubscribe handlers (POST on the two subreddit routes):
 * each checks the session and the body, then adds or removes one
 * (user, subreddit) pair of the subscription table behind ordered guards.
 */
module SubscriptionRoutes {
  import opened Domain
  import opened Http
  import opened Store

  const SubscribeFailed := "Couldn't subscribe, try again later."

  /** One subscribe request. */
  function SubscribeStep(st: DbState, session: Option<UserId>, body: Body<SubredditId>): (h: Handled)
    ensures session.None? ==> h.response.status == UNAUTHORIZED && h.state == st
    ensures session.Some? && body.Invalid? ==> h.response.status == UNPROCESSABLE && h.state == st
    ensures session.Some? && (body.NotJson? || (body.Valid? && !st.dbOnline)) ==>
      h.response.status == INTERNAL_ERROR && h.state == st
    ensures session.Some? && body.Valid? && st.dbOnline ==>
      var pair := Subscription(session.value, body.value);
      if pair in st.subscriptions then h.response.status == CONFLICT && h.state == st
      else (h.response == Response(CREATED, Text(body.value))
            && h.state == st.(subscriptions := st.subscriptions + {pair}))
    // only the subscription table ever changes, and it only grows
    ensures h.state == st.(subscriptions := h.state.subscriptions)
    ensures st.subscriptions <= h.state.subscriptions
  {
    if session.None? then Handled(Response(UNAUTHORIZED, Text("Unauthorized")), st)
    else if body.NotJson? then Handled(Response(INTERNAL_ERROR, Text(SubscribeFailed)), st)
    else if body.Invalid? then Handled(Response(UNPROCESSABLE, Text("Invalid POST request data passed")), st)
    else if !st.dbOnline then Handled(Response(INTERNAL_ERROR, Text(SubscribeFailed)), st)
    else
      var pair := Subscription(session.value, body.value);
      if pair in st.subscriptions then
        Handled(Response(CONFLICT, Text("You are already subscribed to this subreddit.")), st)
      else
        Handled(Response(CREATED, Text(body.value)), st.(subscriptions := st.subscriptions + {pair}))
  }

  /** One unsubscribe request: the subscription check comes before the creator check. */
  function UnsubscribeStep(st: DbState, session: Option<UserId>, body: Body<SubredditId>): (h: Handled)
    ensures session.None? ==> h.response.status == UNAUTHORIZED && h.state == st
    ensures session.Some? && body.Invalid? ==> h.response.status == UNPROCESSABLE && h.state == st
    ensures session.Some? && (body.NotJson? || (body.Valid? && !st.dbOnline)) ==>
      h.response.status == INTERNAL_ERROR && h.state == st
    ensures session.Some? && body.Valid? && st.dbOnline ==>
      var pair := Subscription(session.value, body.value);
      if pair !in st.subscriptions then h.response.status == CONFLICT && h.state == st
      else if IsCreator(st.subreddits, body.value, session.value) then
        h.response.status == BAD_REQUEST && h.state == st
      else (h.response == Response(OK, Text(body.value))
            && h.state == st.(subscriptions := st.subscriptions - {pair}))
    // only the subscription table ever changes, and it only shrinks
    ensures h.state == st.(subscriptions := h.state.subscriptions)
    ensures h.state.subscriptions <= st.subscriptions
  {
    if session.None? then Handled(Response(UNAUTHORIZED, Text("Unauthorized")), st)
    else if body.NotJson? then Handled(Response(INTERNAL_ERROR, Text(SubscribeFailed)), st)
    else if body.Invalid? then Handled(Response(UNPROCESSABLE, Text("Invalid request data passed")), st)
    else if !st.dbOnline then Handled(Response(INTERNAL_ERROR, Text(SubscribeFailed)), st)
    else
      var pair := Subscription(session.value, body.value);
      if pair !in st.subscriptions then
        Handled(Response(CONFLICT, Text("You are not subscribed to this subreddit.")), st)
      else if IsCreator(st.subreddits, body.value, session.value) then
        Handled(Response(BAD_REQUEST, Text("You can't unsubscribe your own subreddit.")), st)
      else
        Handled(Response(OK, Text(body.value)), st.(subscriptions := st.subscriptions - {pair}))
  }

  /** Subscribing twice leaves the state of subscribing once; the second call answers 409. */
  lemma SubscribeTwice(st: DbState, u: UserId, s: SubredditId)
    ensures var h1 := SubscribeStep(st, Some(u), Valid(s));
      var h2 := SubscribeStep(h1.state, Some(u), Valid(s));
      && h2.state == h1.state
      && (st.dbOnline ==> h2.response.status == CONFLICT)
  {
  }

  /**
   * A subscribe that succeeds, followed by an unsubscribe of a user who did not
   * create the subreddit, restores the state it started from.
   */
  lemma SubscribeThenUnsubscribe(st: DbState, u: UserId, s: SubredditId)
    requires !IsCreator(st.subreddits, s, u)
    ensures var h1 := SubscribeStep(st, Some(u), Valid(s));
      var h2 := UnsubscribeStep(h1.state, Some(u), Valid(s));
      h1.response.status == CREATED ==> h2.response.status == OK && h2.state == st
  {
    var h1 := SubscribeStep(st, Some(u), Valid(s));
    if h1.response.status == CREATED {
      var pair := Subscription(u, s);
      assert pair !in st.subscriptions;
      assert st.subscriptions + {pair} - {pair} == st.subscriptions;
    }
  }

  /** The creator of a subreddit who is subscribed to it stays subscribed. */
  lemma CreatorStaysSubscribed(st: DbState, u: UserId, s: SubredditId, body: Body<SubredditId>)
    requires Subscription(u, s) in st.subscriptions && IsCreator(st.subreddits, s, u)
    ensures Subscription(u, s) in UnsubscribeStep(st, Some(u), body).state.subscriptions
  {
  }

  method Subscribe(db: Db, session: Option<UserId>, body: Body<SubredditId>) returns (res: Response)
    modifies db
    ensures Handled(res, db.State()) == SubscribeStep(old(db.State()), session, body)
  {
    if session.None? {
      return Response(UNAUTHORIZED, Text("Unauthorized"));
    }
    if body.NotJson? {
      return Response(INTERNAL_ERROR, Text(SubscribeFailed));
    }
    if body.Invalid? {
      return Response(UNPROCESSABLE, Text("Invalid POST request data passed"));
    }
    if !db.dbOnline {
      return Response(INTERNAL_ERROR, Text(SubscribeFailed));
    }
    var subredditId := body.value;
    var subscriptionExists := Subscription(session.value, subredditId) in db.subscriptions;
    if subscriptionExists {
      return Response(CONFLICT, Text("You are already subscribed to this subreddit."));
    }
    db.subscriptions := db.subscriptions + {Subscription(session.value, subredditId)};
    res := Response(CREATED, Text(subredditId));
  }

  method Unsubscribe(db: Db, session: Option<UserId>, body: Body<SubredditId>) returns (res: Response)
    modifies db
    ensures Handled(res, db.State()) == UnsubscribeStep(old(db.State()), session, body)
  {
    if session.None? {
      return Response(UNAUTHORIZED, Text("Unauthorized"));
    }
    if body.NotJson? {
      return Response(INTERNAL_ERROR, Text(SubscribeFailed));
    }
    if body.Invalid? {
      return Response(UNPROCESSABLE, Text("Invalid request data passed"));
    }
    if !db.dbOnline {
      return Response(INTERNAL_ERROR, Text(SubscribeFailed));
    }
    var subredditId := body.value;
    var subscriptionExists := Subscription(session.value, subredditId) in db.subscriptions;
    if !subscriptionExists {
      return Response(CONFLICT, Text("You are not subscribed to this subreddit."));
    }
    if IsCreator(db.subreddits, subredditId, session.value) {
      return Response(BAD_REQUEST, Text("You can't unsubscribe your own subreddit."));
    }
    db.subscriptions := db.subscriptions - {Subscription(session.value, subredditId)};
    res := Response(OK, Text(subredditId));
  }
}
