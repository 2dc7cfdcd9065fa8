# breadit votes, subscriptions and posts: a Dafny model

breadit is a Reddit-like forum. Its users subscribe to subreddits, post in
them, comment on posts, and vote posts up or down. This project models the
vote subsystem and the small request handlers around it. Each part is proved
against a specification.

- **The vote handler** (`PATCH` on the post-vote route). It works on a vote
  table that keeps one row per (user, post).
  - It creates, deletes (toggle-off) or retypes the signed-in user's vote.
  - It folds the post's votes into a signed score, counting +1 per UP and
    -1 per DOWN.
  - When that score is at least the promotion threshold (1), it writes a
    snapshot of the post to the read cache at key `post:<id>`.
  - The score is folded over the votes read before the change. A toggle-off
    returns before any cache write.
- **The client vote controller.** It holds the viewer's vote and the score
  on display.
  - A click predicts the outcome at once (`onMutate`). A failed request
    rolls the prediction back (`onError`).
  - Both buttons are disabled while a request is in flight.
- **The post feed and the server vote widget.** They derive each post's
  score and the viewer's own vote from the post's votes. The feed also
  numbers the pages of its infinite scroll and flattens them into one list.
- **The subscription, post-creation and comment handlers.** Each runs ordered
  guards that map to distinct status codes (401, 409, 400, 422, 500). Then it
  adds or removes one row.
- **The post validator.** The title is a string of 3 to 128 characters, the
  subreddit id is a string, and the content is unconstrained.

Layout:

- `domain.dfy`: vote types, table rows and the cached snapshot.
- `http.dfy`: statuses, responses, and the three outcomes of reading a body.
- `post_validator.dfy`: the post validator.
- `vote_score.dfy`: the score fold.
- `vote_ledger.dfy`: the vote table's queries and mutations.
- `store.dfy`: the database and cache state, as the value `DbState` and the
  class `Db`.
- `vote_route.dfy`, `subscription_routes.dfy`, `content_routes.dfy`: the
  handlers.
- `vote_client.dfy`: the client controller.
- `post_feed.dfy`, `post_vote_server.dfy`: the derivations.

Each handler has two forms:

- a pure step function, from the state it finds to the response and the state
  it leaves; the lemmas are stated about this function;
- a module-level method that takes the store, a `Store.Db` object, runs the
  guards in the source's order and updates the store's fields in place. Its
  postcondition ties it to the step function.

## Model

| member | source | states |
|---|---|---|
| Domain.Weight | src/app/api/subreddit/post/vote/route.ts:63-64 | One vote contributes +1 when it is UP and -1 when it is DOWN |
| VoteScore.Score | src/app/api/subreddit/post/vote/route.ts:62-66 | The +1/-1 fold over a post's votes lies between minus and plus the number of votes, and is 0 for a post without votes |
| VoteScore.ScoreAppend | src/app/api/subreddit/post/vote/route.ts:92-96 | The score of two vote lists joined is the sum of their scores |
| VoteScore.ScorePermutation | src/app/api/subreddit/post/vote/route.ts:92-96 | Two vote lists holding the same votes in any order have the same score |
| VoteLedger.FindVote | src/app/api/subreddit/post/vote/route.ts:20-25 | The lookup of the user's vote on the post finds a row with that (userId, postId) exactly when one exists |
| VoteLedger.Lookup | src/app/api/subreddit/post/vote/route.ts:20-25 | The vote type a user holds on a post is present exactly when a row with that key exists, and that row is in the table |
| VoteLedger.LookupMeansRow | src/app/api/subreddit/post/vote/route.ts:20-25 | In a table with unique keys, the lookup gives type t exactly when the row (u, p, t) is in the table |
| VoteLedger.KeyDetermines | src/app/api/subreddit/post/vote/route.ts:40-44 | In a table with unique keys, two rows with the same (userId, postId) are the same row |
| VoteLedger.VotesOf | src/app/api/subreddit/post/vote/route.ts:27-30 | The votes read with the post are exactly the table rows with that post id |
| VoteLedger.RemoveKey | src/app/api/subreddit/post/vote/route.ts:38-45 | The delete leaves exactly the rows without key (u, p) |
| VoteLedger.SetType | src/app/api/subreddit/post/vote/route.ts:49-59 | The update keeps the number of rows and every key, and changes the type of the (u, p) row only |
| VoteLedger.UniqueAfterCreate | src/app/api/subreddit/post/vote/route.ts:84-90 | Creating a vote for a key the table lacks keeps one row per key |
| VoteLedger.UniqueAfterRemove | src/app/api/subreddit/post/vote/route.ts:38-45 | Deleting a vote keeps one row per key |
| VoteLedger.UniqueAfterSetType | src/app/api/subreddit/post/vote/route.ts:49-59 | Retyping a vote keeps one row per key |
| VoteLedger.RemoveAbsentKey | src/app/api/subreddit/post/vote/route.ts:38-45 | Deleting a key the table lacks changes nothing |
| VoteLedger.SetTypeAbsentKey | src/app/api/subreddit/post/vote/route.ts:49-59 | Retyping a key the table lacks changes nothing |
| VoteLedger.ScoreAfterCreate | src/app/api/subreddit/post/vote/route.ts:84-90 | A created vote is appended to its post's votes and moves the post's score by its weight |
| VoteLedger.ScoreAfterRemove | src/app/api/subreddit/post/vote/route.ts:38-45 | Deleting the vote (u, p, t) moves post p's score by minus the weight of t |
| VoteLedger.ScoreAfterSetType | src/app/api/subreddit/post/vote/route.ts:49-59 | Retyping the vote (u, p, t) to t' moves post p's score by weight(t') - weight(t) |
| VoteLedger.OtherPostsUntouched | src/app/api/subreddit/post/vote/route.ts:36-90 | Create, delete and retype on post p leave every other post's votes as they were |
| VoteLedger.OtherKeysUntouched | src/app/api/subreddit/post/vote/route.ts:36-90 | Create, delete and retype keyed on (u, p) leave the vote of every other (user, post) pair as it was |
| VoteLedger.SameRowsSameLookup | src/app/api/subreddit/post/vote/route.ts:20-25 | Two tables with unique keys and the same rows for (u, p) give the same vote for (u, p) |
| Store.FindCreatedSubreddit | src/app/api/subreddit/unsubscribe/route.ts:30-35 | The creator lookup finds the subreddit with the requested id exactly when the session user created it; `Store.IsCreator` is this lookup finding a row |
| Store.FindPost | src/app/api/subreddit/post/vote/route.ts:27-30 | The post lookup finds a post with the requested id exactly when one exists |
| Store.AuthorUsername | src/app/api/subreddit/post/vote/route.ts:72 | The snapshot's author name is the author's user name, or "" when the author or the name is missing |
| Store.CacheKey | src/app/api/subreddit/post/vote/route.ts:78 | The cache key starts with `post:`, followed by the post id, which can be read back from it |
| Store.CacheKeyInjective | src/app/api/subreddit/post/vote/route.ts:108 | Distinct posts never share a cache key |
| VoteRoute.Snapshot | src/app/api/subreddit/post/vote/route.ts:69-76 | The cache payload carries the post's id, title, author name, serialised content and creation time, and the vote just requested; it has no score |
| VoteRoute.CacheWriteBack | src/app/api/subreddit/post/vote/route.ts:68-79 | The cache write never touches the vote table |
| VoteRoute.PatchStep | src/app/api/subreddit/post/vote/route.ts:10-121 | No session gives 401, a body that is not JSON 500, a schema failure 422, an unreachable database 500, a missing post 404, each with nothing changed; the status is one of 200, 201, 401, 404, 422, 500; only the vote table and the cache change; no cache entry is ever removed, and none but `post:<postId>` is written |
| VoteRoute.TransitionTable | src/app/api/subreddit/post/vote/route.ts:36-90 | No vote: a vote of the requested type is created (201). The same vote: it is deleted (200). The other vote: it is retyped (200). A 500 on the create and retype paths leaves the ledger change in place |
| VoteRoute.ResultingVote | src/app/api/subreddit/post/vote/route.ts:36-90 | Afterwards the user holds the requested vote, or none after a toggle-off |
| VoteRoute.KeepsVoteKeyUnique | src/app/api/subreddit/post/vote/route.ts:20-25 | Every request keeps one vote row per (user, post) |
| VoteRoute.OtherVotesUntouched | src/app/api/subreddit/post/vote/route.ts:36-90 | No other (user, post) vote and no other post's votes change |
| VoteRoute.CachePolicy | src/app/api/subreddit/post/vote/route.ts:62-109 | The cache at `post:<id>` is written, with the requested vote, exactly when the path is not a toggle-off, the score read before the change is at least 1, and the cache is reachable. The answer is 500 exactly when such a write fails. Otherwise the cache is unchanged |
| VoteRoute.GateScoreIsOneChangeBehind | src/app/api/subreddit/post/vote/route.ts:27-30 | The post's score after the request differs from the gating score by exactly the weight of the vote change applied |
| VoteRoute.FirstUpvoteNotCached | src/app/api/subreddit/post/vote/route.ts:92-98 | The first upvote on a post without votes answers 201 and makes its score 1, but leaves the cache unchanged |
| VoteRoute.SameVoteTwiceRestoresLedger | src/app/api/subreddit/post/vote/route.ts:36-47 | Voting the same way twice on a post the user had not voted on restores the vote table and the score, and the second request writes no cache entry |
| VoteRoute.SwitchMovesScoreByTwo | src/app/api/subreddit/post/vote/route.ts:49-59 | Switching from the opposite vote leaves the requested vote and moves the post's score by twice its weight |
| VoteRoute.UpThenDown | src/app/api/subreddit/post/vote/route.ts:49-59 | UP then DOWN leaves one DOWN vote and the score 2 below its value after the UP |
| VoteRoute.Patch | src/app/api/subreddit/post/vote/route.ts:10-121 | The handler on the store gives the response and the new state of the step function |
| PostValidator.TitleIssues | src/lib/validators/post.ts:4-7 | A non-string title is a type issue; a string title has no issue exactly when its length is 3 to 128; too short and too long are reported as such |
| PostValidator.Parse | src/lib/validators/post.ts:3-10 | A body is accepted exactly when it is an object with a string title of 3 to 128 characters and a string subreddit id; the request then carries the three fields; a rejection lists at least one issue |
| PostValidator.ShortTitleRejected | src/lib/validators/post.ts:6 | A title shorter than 3 characters is rejected as too small |
| PostValidator.LongTitleRejected | src/lib/validators/post.ts:7 | A title longer than 128 characters is rejected as too big |
| PostValidator.NonStringTitleRejected | src/lib/validators/post.ts:5 | A title that is not a string is rejected |
| PostValidator.ContentUnconstrained | src/lib/validators/post.ts:9 | Replacing the content never changes whether a body is accepted, and the request carries the new content |
| SubscriptionRoutes.SubscribeStep | src/app/api/subreddit/subscribe/route.ts:6-46 | No session gives 401, a schema failure 422, a body that is not JSON or an unreachable database 500, an existing subscription 409, each with nothing changed. Otherwise exactly the pair is added and the answer is 201 with the subreddit id. Only the subscription set changes, and it only grows |
| SubscriptionRoutes.UnsubscribeStep | src/app/api/subreddit/unsubscribe/route.ts:6-61 | No session gives 401, a schema failure 422, other failures 500, no subscription 409, the subreddit's creator 400 (checked after the subscription), each with nothing changed. Otherwise exactly the pair is removed and the answer is 200 with the subreddit id |
| SubscriptionRoutes.SubscribeTwice | src/app/api/subreddit/subscribe/route.ts:17-37 | Subscribing twice leaves the state of subscribing once, and the second call answers 409 |
| SubscriptionRoutes.SubscribeThenUnsubscribe | src/app/api/subreddit/unsubscribe/route.ts:43-52 | A successful subscribe followed by an unsubscribe from a user who is not the creator restores the state |
| SubscriptionRoutes.CreatorStaysSubscribed | src/app/api/subreddit/unsubscribe/route.ts:30-41 | A subscribed creator stays subscribed whatever the body |
| SubscriptionRoutes.Subscribe | src/app/api/subreddit/subscribe/route.ts:6-46 | The handler on the store gives the response and the new state of the step function |
| SubscriptionRoutes.Unsubscribe | src/app/api/subreddit/unsubscribe/route.ts:6-61 | The handler on the store gives the response and the new state of the step function |
| ContentRoutes.CreatePostStep | src/app/api/subreddit/post/create/route.ts:6-47 | No session gives 401, an unreadable body 500, a rejected body 422 with the validator's issues, an unreachable database 500, a user not subscribed 409, each with nothing changed. Otherwise exactly one post is appended with the request's fields and the session user as author (201). Only the post table changes |
| ContentRoutes.CreatedPostIsWellFormed | src/app/api/subreddit/post/create/route.ts:17-37 | Every created post has a title of 3 to 128 characters, is authored by the session user, and that user is subscribed to its subreddit |
| ContentRoutes.CommentStep | src/app/api/subreddit/post/comment/route.ts:6-35 | No session gives 401, a schema failure 422, other failures 500, each with nothing changed. Otherwise exactly one comment is appended with the request's fields and the session user as author (201). Only the comment table changes |
| ContentRoutes.CommentIgnoresSubscriptions | src/app/api/subreddit/post/comment/route.ts:13-23 | The comment handler's answer and comments do not depend on the subscription table |
| ContentRoutes.CreatePost | src/app/api/subreddit/post/create/route.ts:6-47 | The handler on the store gives the response and the new state of the step function |
| ContentRoutes.CreateComment | src/app/api/subreddit/post/comment/route.ts:6-35 | The handler on the store gives the response and the new state of the step function |
| VoteClient.Predict | src/components/post-vote/PostVoteClient.tsx:64-80 | From no vote, a click sets the vote and moves the score by its weight. Clicking the vote held clears it and moves the score by minus its weight. Switching from the opposite vote moves the score by twice the new weight. Score minus the weight of the held vote is preserved |
| VoteClient.RollbackAsWritten | src/components/post-vote/PostVoteClient.tsx:46-50 | The rollback restores the previous vote and moves the score by one against the clicked type, whatever the prediction did |
| VoteClient.RollbackRestoresOnlyFromNoVote | src/components/post-vote/PostVoteClient.tsx:46-79 | Prediction then rollback restores the display exactly when no vote was held. Otherwise the score drifts by -2 times the weight after a toggle-off and by one weight after a switch |
| VoteClient.ToggleOffRollbackDrifts | src/components/post-vote/PostVoteClient.tsx:47-50 | Holding UP at score 5, clicking UP and failing shows UP at score 3 |
| VoteClient.NoVoteRollbackRestores | src/components/post-vote/PostVoteClient.tsx:46-79 | With no vote at score 5, clicking UP shows 6, and a failure shows no vote at 5 |
| VoteClient.Restore | src/components/post-vote/PostVoteClient.tsx:46-50 | The intended rollback puts back the previous vote and keeps score minus the weight of the held vote |
| VoteClient.RestoreInvertsPredict | src/components/post-vote/PostVoteClient.tsx:64-80 | The intended rollback undoes every prediction, from every starting vote |
| VoteClient.PostVoteClient.constructor | src/components/post-vote/PostVoteClient.tsx:29-31 | The controller starts at the initial vote and score, with no request in flight |
| VoteClient.PostVoteClient.SyncInitialVote | src/components/post-vote/PostVoteClient.tsx:33-35 | A changed initial vote resets the held vote but not the score |
| VoteClient.PostVoteClient.OnMutate | src/components/post-vote/PostVoteClient.tsx:64-80 | The display moves to the prediction |
| VoteClient.PostVoteClient.OnError | src/components/post-vote/PostVoteClient.tsx:46-50 | The display moves to the rollback as written, from the vote held before the prediction |
| VoteClient.PostVoteClient.Click | src/components/post-vote/PostVoteClient.tsx:85-110 | With a request in flight a click does nothing; otherwise the vote held is remembered, the prediction is shown and the request is sent, so at most one request is outstanding |
| VoteClient.PostVoteClient.Settle | src/components/post-vote/PostVoteClient.tsx:37-63 | Success keeps the prediction; failure applies the rollback as written; either way no request is left in flight |
| VoteClient.ClickAndFailFromNoVote | src/components/post-vote/PostVoteClient.tsx:29-80 | On a fresh controller with no vote, a click followed by a failure shows the initial state |
| PostFeed.CurrentVote | src/components/PostFeed.tsx:65-67 | The viewer's vote is the first vote cast by the session user; there is none exactly when there is no session or no vote of that user |
| PostFeed.CurrentVoteIsLedgerLookup | src/components/PostFeed.tsx:65-67 | Over one post's votes from a table with unique keys, the viewer's vote type is the one the vote handler looks up |
| PostFeed.NextPageParam | src/components/PostFeed.tsx:42-44 | The next page number is one more than the number of pages loaded; it is past the first page once any page is loaded |
| PostFeed.InitialData | src/components/PostFeed.tsx:45 | The initial data is the server-rendered posts as page 1, and it lists exactly those posts |
| PostFeed.FetchNext | src/components/PostFeed.tsx:33-44 | A fetch appends its page with a page number not used before, keeps page i numbered i + 1, and appends its posts to the list |
| PostFeed.FetchAll | src/components/PostFeed.tsx:42-44 | Any number of fetches keeps page i numbered i + 1, and the pages are the initial ones followed by the fetched ones |
| PostFeed.Flatten | src/components/PostFeed.tsx:54 | Flattening lists a post exactly when some page holds it |
| PostFeed.ListedPosts | src/components/PostFeed.tsx:54 | Without data the feed lists the initial posts; with data, exactly the posts of its pages |
| PostFeed.ListingGrowsByPage | src/components/PostFeed.tsx:54 | After any sequence of fetches the list is the initial posts followed by the fetched pages in order, and the next page number is the number of fetches plus 2 |
| PostFeed.Item | src/components/PostFeed.tsx:59-90 | Each item carries its post, its subreddit name, its comment count, the +1/-1 fold over the post's votes as its score, and the viewer's first vote on the post; it holds the ref exactly when it is last |
| PostFeed.Render | src/components/PostFeed.tsx:58-93 | One item per post, in order |
| PostFeed.RenderedItems | src/components/PostFeed.tsx:58-80 | At most one item holds the ref, and when the list is not empty it is the last; each item's score is the fold over its post's votes, bounded by their number and 0 without votes; each item's vote is the viewer's first vote on the post |
| PostFeed.ScoreIgnoresVoteOrder | src/components/PostFeed.tsx:59-63 | Reordering a post's votes does not change the score the feed shows for it |
| PostVoteServer.ViewerVoteType | src/components/post-vote/PostVoteServer.tsx:37-39 | The viewer's vote type is that of the first vote cast by the viewer, and is absent when there is none |
| PostVoteServer.Render | src/components/post-vote/PostVoteServer.tsx:15-52 | The widget renders not-found exactly when the fetched post is missing. The post id is always passed on. Without a fetch, the initial values pass through unchanged. Null votes give an undefined score and vote. Otherwise the score is bounded by the number of votes, and the vote is present exactly when the viewer cast one and is the type of such a vote |
| PostVoteServer.AgreesWithFeed | src/components/post-vote/PostVoteServer.tsx:31-39 | For the same votes and viewer, the widget and the feed show the same score and vote |
| PostVoteServer.MatchesLedger | src/components/post-vote/PostVoteServer.tsx:31-39 | Over post p's votes from a table with unique keys, the widget starts at the fold of those votes and at the vote the handler looks up |

## Left out

- The database, the cache and the session are values in the model, not I/O. `getAuthSession` throwing is not modelled.
- Only two failure sources are modelled: an unreachable database (`dbOnline`) and an unreachable cache (`cacheOnline`). The model has the database either answer every query or fail before the first one. A failure between two queries of one request is not modelled.
- Concurrency between requests is not modelled. Each handler call is one atomic step, so races between the vote lookup and the mutation are not modelled, nor last-writer-wins on the cache.
- The vote, subscription and comment schemas are given as already parsed (`Body`). Only the post schema's own bounds are modelled. Zod's internals and its error messages are not modelled.
- The vote table is a sequence of rows with a one-row-per-key invariant, not the database's composite key. Foreign keys, cascades and the rest of the schema are not modelled.
- Row ids and creation times are inputs to the creating handlers, because the database chooses them.
- `JSON.stringify` of the post content is kept opaque (`Stringified`).
- React scheduling is not modelled: `usePrevious` is taken to hold the vote from before the latest prediction. Re-render timing, `useEffect` ordering and react-query's option updates are not modelled. The toasts shown on failure are not modelled.
- VoteClient.PostVoteClient.constructor: the initial score is a number. An undefined initial score, which the server widget can hand over when a post's votes are null, is not modelled on the client side.
- The request URL the feed builds, the intersection observer and the fetch trigger are not modelled. Neither is the 5-second wait in the server widget (it is a timer with no logical effect).
- PostValidator.TitleIssues: a title's length is its number of Dafny characters (Unicode scalar values). JavaScript's `.length` counts UTF-16 code units, so a title holding characters outside the Basic Multilingual Plane is measured shorter here than by the source. The 3 and 128 bounds are checked on the Dafny count.
- The feed's score fold ignores vote types other than UP and DOWN; the model's vote type has only those two, so that branch does not arise.
- The UI components and the parent-path trim in the editor are not part of this model. Neither is the reply flattening in the comment view; each is a single expression inside a UI component.
- A cache-write failure after a ledger change answers 500 and the ledger change is kept, as the handler's single catch block makes it (src/app/api/subreddit/post/vote/route.ts:112-119). The model follows the code. Treating the cache write as best effort, where a failed write is swallowed and the vote still answers 200 or 201, is not modelled.
- The first upvote on a post with score 0 writes no cache entry, because the gate sees the score from before the change. The model follows the code (see `VoteRoute.FirstUpvoteNotCached`). Gating on the score after the change, under which that upvote would be cached, is not modelled.

## Findings

| source | as written | input that shows it | evidently intended | confidence | as-written member | corrected member |
|---|---|---|---|---|---|---|
| src/components/post-vote/PostVoteClient.tsx:46-50 | On a failed vote the score moves by one against the clicked type, whatever the prediction did | Holding UP at score 5, click UP (shows no vote, 4), the request fails: the display shows UP at 3 | The rollback undoes the prediction: UP at 5 | not executed | VoteClient.ToggleOffRollbackDrifts | VoteClient.RestoreInvertsPredict |
