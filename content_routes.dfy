/**
 * The post-creation handler (POST) and the comment handler (PATCH). A post is
 * created only by a user subscribed to its subreddit; a comment is created by
 * any signed-in user, with no subscription check. The row ids and creation
 * times are the database's to choose, so they come in as parameters.
 */
module ContentRoutes {
  import opened Domain
  import opened Http
  import opened Store
  import PostValidator

  /** A post-creation body: not JSON at all, or a decoded JSON value for the schema. */
  datatype PostCreationBody = Unreadable | Decoded(json: PostValidator.PostBody)

  datatype CommentRequest = CommentRequest(postId: PostId, text: string, replyToId: Option<CommentId>)

  /** One post-creation request. */
  function CreatePostStep(st: DbState, session: Option<UserId>, body: PostCreationBody, newId: PostId, now: int): (h: Handled)
    ensures session.None? ==> h.response.status == UNAUTHORIZED && h.state == st
    ensures session.Some? && body.Unreadable? ==> h.response.status == INTERNAL_ERROR && h.state == st
    ensures session.Some? && body.Decoded? && PostValidator.Parse(body.json).Rejected? ==>
      h.response == Response(UNPROCESSABLE, IssuesMessage(PostValidator.Parse(body.json).issues)) && h.state == st
    ensures session.Some? && body.Decoded? && PostValidator.Parse(body.json).Parsed? ==>
      var req := PostValidator.Parse(body.json).request;
      if !st.dbOnline then h.response.status == INTERNAL_ERROR && h.state == st
      else if Subscription(session.value, req.subredditId) !in st.subscriptions then
        h.response.status == CONFLICT && h.state == st
      else
        h.response.status == CREATED
        && h.state == st.(posts := st.posts + [PostRow(newId, req.title, req.content, req.subredditId, session.value, now)])
    // only the post table ever changes, by at most one appended row
    ensures h.state == st.(posts := h.state.posts)
    ensures h.state.posts == st.posts || (|h.state.posts| == |st.posts| + 1 && h.state.posts[..|st.posts|] == st.posts)
  {
    if session.None? then Handled(Response(UNAUTHORIZED, Text("Unauthorized")), st)
    else if body.Unreadable? then Handled(Response(INTERNAL_ERROR, Text("Error creating post")), st)
    else
      match PostValidator.Parse(body.json)
      case Rejected(issues) => Handled(Response(UNPROCESSABLE, IssuesMessage(issues)), st)
      case Parsed(req) =>
        if !st.dbOnline then Handled(Response(INTERNAL_ERROR, Text("Error creating post")), st)
        else if Subscription(session.value, req.subredditId) !in st.subscriptions then
          Handled(Response(CONFLICT, Text("Subscribe to post")), st)
        else
          var row := PostRow(newId, req.title, req.content, req.subredditId, session.value, now);
          Handled(Response(CREATED, Text("Ok")), st.(posts := st.posts + [row]))
  }

  /** Every post the handler creates has a title of 3 to 128 characters and an author subscribed to its subreddit. */
  lemma CreatedPostIsWellFormed(st: DbState, u: UserId, body: PostCreationBody, newId: PostId, now: int)
    ensures var h := CreatePostStep(st, Some(u), body, newId, now);
      h.state.posts != st.posts ==>
        var row := h.state.posts[|st.posts|];
        && PostValidator.MinTitleLength <= |row.title| <= PostValidator.MaxTitleLength
        && row.authorId == u
        && Subscription(u, row.subredditId) in st.subscriptions
  {
  }

  /** One comment request. */
  function CommentStep(st: DbState, session: Option<UserId>, body: Body<CommentRequest>, newId: CommentId, now: int): (h: Handled)
    ensures session.None? ==> h.response.status == UNAUTHORIZED && h.state == st
    ensures session.Some? && body.Invalid? ==> h.response.status == UNPROCESSABLE && h.state == st
    ensures session.Some? && (body.NotJson? || (body.Valid? && !st.dbOnline)) ==>
      h.response.status == INTERNAL_ERROR && h.state == st
    ensures session.Some? && body.Valid? && st.dbOnline ==>
      var req := body.value;
      h.response.status == CREATED
      && h.state == st.(comments := st.comments + [CommentRow(newId, req.postId, req.text, req.replyToId, session.value, now)])
    // only the comment table ever changes
    ensures h.state == st.(comments := h.state.comments)
  {
    if session.None? then Handled(Response(UNAUTHORIZED, Text("Unauthorized")), st)
    else if body.NotJson? then Handled(Response(INTERNAL_ERROR, Text("Error posting comment, try again later.")), st)
    else if body.Invalid? then Handled(Response(UNPROCESSABLE, Text("Invalid request data passed")), st)
    else if !st.dbOnline then Handled(Response(INTERNAL_ERROR, Text("Error posting comment, try again later.")), st)
    else
      var req := body.value;
      var row := CommentRow(newId, req.postId, req.text, req.replyToId, session.value, now);
      Handled(Response(CREATED, Text("OK")), st.(comments := st.comments + [row]))
  }

  /** Unlike post creation, commenting does not look at the subscription table. */
  lemma CommentIgnoresSubscriptions(st: DbState, subs: set<Subscription>, session: Option<UserId>,
                                    body: Body<CommentRequest>, newId: CommentId, now: int)
    ensures var h := CommentStep(st, session, body, newId, now);
      var h' := CommentStep(st.(subscriptions := subs), session, body, newId, now);
      h'.response == h.response && h'.state.comments == h.state.comments
  {
  }

  method CreatePost(db: Db, session: Option<UserId>, body: PostCreationBody, newId: PostId, now: int)
    returns (res: Response)
    modifies db
    ensures Handled(res, db.State()) == CreatePostStep(old(db.State()), session, body, newId, now)
  {
    if session.None? {
      return Response(UNAUTHORIZED, Text("Unauthorized"));
    }
    if body.Unreadable? {
      return Response(INTERNAL_ERROR, Text("Error creating post"));
    }
    var parsed := PostValidator.Parse(body.json);
    if parsed.Rejected? {
      return Response(UNPROCESSABLE, IssuesMessage(parsed.issues));
    }
    if !db.dbOnline {
      return Response(INTERNAL_ERROR, Text("Error creating post"));
    }
    var req := parsed.request;
    var subscriptionExists := Subscription(session.value, req.subredditId) in db.subscriptions;
    if !subscriptionExists {
      return Response(CONFLICT, Text("Subscribe to post"));
    }
    db.posts := db.posts + [PostRow(newId, req.title, req.content, req.subredditId, session.value, now)];
    res := Response(CREATED, Text("Ok"));
  }

  method CreateComment(db: Db, session: Option<UserId>, body: Body<CommentRequest>, newId: CommentId, now: int)
    returns (res: Response)
    modifies db
    ensures Handled(res, db.State()) == CommentStep(old(db.State()), session, body, newId, now)
  {
    if session.None? {
      return Response(UNAUTHORIZED, Text("Unauthorized"));
    }
    if body.NotJson? {
      return Response(INTERNAL_ERROR, Text("Error posting comment, try again later."));
    }
    if body.Invalid? {
      return Response(UNPROCESSABLE, Text("Invalid request data passed"));
    }
    if !db.dbOnline {
      return Response(INTERNAL_ERROR, Text("Error posting comment, try again later."));
    }
    var req := body.value;
    db.comments := db.comments + [CommentRow(newId, req.postId, req.text, req.replyToId, session.value, now)];
    res := Response(CREATED, Text("OK"));
  }
}
