/**
 * The schema a post-creation request body must satisfy: a string title of
 * 3 to 128 characters, a string subreddit id, and content of any shape.
 * A title's length is its number of Dafny characters.
 */
module PostValidator {
  import opened Domain

  const MinTitleLength := 3
  const MaxTitleLength := 128

  /** A decoded request body: an object with the three fields read from it
      (a missing field reads as JUndefined), or any non-object value. */
  datatype PostBody =
    | PostBody(title: Json, subredditId: Json, content: Json)
    | NotAnObject

  datatype PostCreationRequest = PostCreationRequest(title: string, subredditId: SubredditId, content: Json)

  datatype Validated = Parsed(request: PostCreationRequest) | Rejected(issues: seq<Issue>)

  /** The issues of the title field: a type issue, or the failed length bounds. */
  function TitleIssues(title: Json): (issues: seq<Issue>)
    ensures !title.JString? ==> issues == [TitleNotString]
    ensures title.JString? ==>
      (issues == [] <==> MinTitleLength <= |title.s| <= MaxTitleLength)
    ensures title.JString? && |title.s| < MinTitleLength ==> issues == [TitleTooSmall]
    ensures title.JString? && |title.s| > MaxTitleLength ==> issues == [TitleTooBig]
  {
    match title
    case JString(s) =>
      (if |s| < MinTitleLength then [TitleTooSmall] else [])
      + (if |s| > MaxTitleLength then [TitleTooBig] else [])
    case _ => [TitleNotString]
  }

  /** PostValidator.parse: every field is checked, and all issues are collected. */
  function Parse(body: PostBody): (r: Validated)
    ensures r.Parsed? <==>
      body.PostBody? && body.title.JString? && body.subredditId.JString?
      && MinTitleLength <= |body.title.s| <= MaxTitleLength
    ensures r.Parsed? ==>
      r.request == PostCreationRequest(body.title.s, body.subredditId.s, body.content)
    ensures r.Rejected? ==> |r.issues| > 0
    ensures body.PostBody? && !body.subredditId.JString? ==> r.Rejected? && SubredditIdNotString in r.issues
  {
    match body
    case NotAnObject => Rejected([BodyNotObject])
    case PostBody(title, subredditId, content) =>
      var issues := TitleIssues(title) + (if subredditId.JString? then [] else [SubredditIdNotString]);
      if issues == [] then Parsed(PostCreationRequest(title.s, subredditId.s, content))
      else Rejected(issues)
  }

  /** A title shorter than three characters is rejected, whatever the other fields hold. */
  lemma ShortTitleRejected(body: PostBody)
    requires body.PostBody? && body.title.JString? && |body.title.s| < MinTitleLength
    ensures Parse(body).Rejected? && TitleTooSmall in Parse(body).issues
  {
    assert Parse(body).issues[0] == TitleTooSmall;
  }

  /** A title longer than 128 characters is rejected, whatever the other fields hold. */
  lemma LongTitleRejected(body: PostBody)
    requires body.PostBody? && body.title.JString? && |body.title.s| > MaxTitleLength
    ensures Parse(body).Rejected? && TitleTooBig in Parse(body).issues
  {
    assert Parse(body).issues[0] == TitleTooBig;
  }

  /** A title that is not a string is rejected with a type issue. */
  lemma NonStringTitleRejected(body: PostBody)
    requires body.PostBody? && !body.title.JString?
    ensures Parse(body).Rejected? && TitleNotString in Parse(body).issues
  {
    assert Parse(body).issues[0] == TitleNotString;
  }

  /** The content field is unconstrained: replacing it never changes whether a body is accepted. */
  lemma ContentUnconstrained(body: PostBody, other: Json)
    requires body.PostBody?
    ensures Parse(body).Parsed? <==> Parse(body.(content := other)).Parsed?
    ensures Parse(body).Parsed? ==> Parse(body.(content := other)).request.content == other
  {
  }
}
