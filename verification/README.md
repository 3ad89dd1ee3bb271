# Verification model of the blog backend

A Dafny model of the parts of the backend whose correctness does not show in any one function: the
refresh-token rotation protocol under concurrency, the ordering, paging, navigation and search of
posts, the login limiter, the transaction discipline, and the agreement of the tables of posts and
tags. `dafny verify dfyconfig.toml` checks everything.

## What is modelled

**Refresh-token rotation** (`RefreshTokens`, `RotationMachine`, `RotationInvariant`,
`RotationPreserved`, `RotationSafety`, `RotationChains`, `RotationKills`, `RotationLog`,
`RotationReplays`, `RotationProgress`, `RotationWitness`, `AuthHandlers`, `SerialRuns`, `SerialRefinement`,
`TokenUse`). The scheme is that of section 4.14.2 of RFC 9700 plus a version counter
for each subject.
- `RotationMachine` is a state machine over the committed tables, the uncommitted row versions of every
  transaction (which are its row locks) and a program counter for each transaction. One step is one SQL
  statement, one row of a multi-row UPDATE, a commit, the sending of an answer, or a rollback at any
  moment. Isolation is READ COMMITTED: an UPDATE chooses its rows when it starts, waits for a row that
  another transaction holds, and checks its WHERE clause again on the committed version; `now()` is the
  time the transaction began. The SELECT of the version check of a logout and the logout proper are two
  transactions in the source; the model gives them one program counter, and lets anything run between.
- A run is any finite sequence of actions from empty tables, by any number of transactions and
  subjects. All statements about the machine hold of all runs.
- History is kept beside the tables: a log with one entry for each committed transaction, the issuer of
  each token, and the length of the log when a revoke statement began. No step depends on it.
- `AuthHandlers` has the handlers and statements as methods over tables changed in place, one call at
  a time. `SerialRuns` proves the stronger invariant of that serial use, and that each serial call is a
  run of the interleaved machine; `SerialRefinement` extends that to whole sequences of calls.
  `RotationKills` and `RotationReplays` have the exact conditions under which the interleaved machine
  departs from what serial use promises. `RotationWitness` has concrete runs with endings that serial use excludes.

**Posts** (`Queries`, `Blog`, `Navigation`, `Like`, `Search`). Queries are functions over a table in any
storage order: joins, WHERE, ORDER BY, OFFSET and LIMIT, `unique()`. The order of texts is any total
order (an injective rank), case folding any map of characters that leaves `%`, `_` and `\` alone and
maps nothing else to them. LIKE is the predicate of section 8.5 of ISO/IEC 9075-2.

**Login limiter** (`LoginRateLimit`), **transactions** (`Transactions`: request code as a tree of reads,
writes, raises, catches and decorated calls), **posts and tags** (`PostService`: the operations as
functions on tables; `PostStore`: the same operations as methods that change the tables in place and
roll back; `TagCounts`).

## Where the code and its words differ

- "Replay revokes the whole family" (app/admin/domain/refresh_token.py:15-18) and "logout revokes the
  subject's tokens" hold of the rows committed when the revoke statement starts, and of no others
  (`RotationKills.RevokeIsExact`). An active row is left behind if and only if a login or refresh of the
  subject commits between the start of that statement and the commit of the kill and its token has not
  been exchanged by then (`RotationKills.KillLeavesActiveExactly`; a run:
  `RotationWitness.StaleActiveRowAfterLogout`). At any later time a subject has an active row if and only
  if one of its logins or refreshes committed after its last committed revoke statement began and the
  token has not been exchanged (`RotationLog.ActiveIsFromLog`). What protects the subject is the version check, which is
  what `RotationSafety.KillIsFinal` is about.
- The state machine in app/admin/domain/refresh_token.py:15-16 omits rotated to revoked, which the
  revoke statement performs; the model has it.
- One replayed token can bump the version twice (`RotationWitness.OneTokenKillsTwice`); in serial use it
  cannot (`SerialRuns.SerialFamilies`). When a kill for a token commits, another refresh of that token
  kills again if and only if it has read the row already and waits to bump
  (`RotationReplays.SecondKillExactly`).
- Expiry of the row is checked by the claim only. A refresh that reads the row of its token after the
  token was exchanged never succeeds and leaves the subject at a later version, expired or not: it kills,
  or is refused because someone else has (`RotationReplays.SpentTokenMovesOn`). A refresh whose claim is
  lost to expiry and that reads the row before any exchange of the token has committed kills nothing
  (`RotationReplays.LostClaimDecides`).

## Model

| member | source | states |
|---|---|---|
| RefreshTokens.VerifyClaims | app/core/security/auth.py:144-163 | the claims checks pass exactly for tokens handed out, unexpired, of the kind asked for and the configured subject; a wrong subject is 403, all else 401 |
| RotationPreserved.NextKeepsInv | api/v1/auth.py:61-147 | every statement, wait, commit, answer and rollback of every transaction keeps the invariant of the protocol and only moves the tables forward |
| RotationPreserved.RunKeepsInv | app/admin/infrastructure/repository.py:11-95 | the same for whole runs from any state that has the invariant |
| RotationSafety.ReachInv | api/v1/auth.py:61-147 | every reachable state has the invariant |
| RotationSafety.VersionsCountKills | app/admin/infrastructure/repository.py:16-44 | `token_version` is 1 plus the committed logouts and reuse kills of the subject: no lost update and no reset by a later login; versions never fall, statuses only climb, revoked is absorbing |
| RotationSafety.KillLeavesNothingUsable | api/v1/auth.py:122-126 | when a kill commits, no refresh token of the subject is usable, every token minted so far is of an older version, and so is whatever a transaction in flight has read |
| RotationSafety.RevocationIsFinal | app/core/security/auth.py:97-99 | in all continuations of a run a token older than the version committed at some point is neither accepted by an admin read nor usable for a refresh |
| RotationSafety.KillIsFinal | api/v1/auth.py:140-147 | after a logout or reuse kill commits, no token minted before it, and none minted at any later time by a login or refresh that had read the admin row by then, is ever accepted or usable |
| RotationSafety.IssuedVersionsAreCommitted | api/v1/auth.py:74-83 | every issued token carries at most the committed version, and its subject is committed once it is handed out |
| RotationSafety.StaleTokensAreRefused | api/v1/auth.py:110-112 | a refresh or logout that reads the admin row after its token's version was left behind never commits anything |
| RotationSafety.ReuseMeansReplay | api/v1/auth.py:117-126 | a refresh kills only if another committed refresh had exchanged the same token |
| RotationSafety.SuccessMeansUnexpired | app/admin/infrastructure/repository.py:77-81 | a refresh that succeeded presented a row unexpired at the start of its transaction |
| RotationSafety.FailedRefreshMeansMovedOn | api/v1/auth.py:109-131 | a refresh that ran to its end without success leaves its subject at a later version than its token's, unless its row was expired when it began |
| RotationSafety.SingleUse | app/admin/infrastructure/repository.py:66-85 | two refreshes that both win a token's rotation are the same transaction |
| RotationSafety.ReplayAlwaysKills | api/v1/auth.py:109-131 | in every interleaving, when two refreshes of one token, unexpired when they began, have each won (answered or not) or run to their ends, the version exceeds the token's from then on, and no token of that version is usable |
| RotationSafety.LogExplainsDatabase | api/v1/auth.py:107-137 | an action changes the tables only by one commit, and the commit of a refresh is exactly one active-to-rotated flip and one new active row of the same subject and version, that of a kill exactly a bump and the revocation of the subject's rows born before its revoke statement began, that of a login one new row and at most a new admin of version 1 |
| RotationSafety.OutcomeDecidesEffect | api/v1/auth.py:107-137 | a success and a detected reuse (although it raises) have committed exactly one effect, of their kind; every other ending has committed nothing |
| RotationChains.ChainShape | app/admin/infrastructure/repository.py:66-85 | each jti is rotated by at most one committed refresh, a rotated row by exactly one, an active row by none; every row descends from a login whose subject and version it carries |
| RotationChains.DepthIdentifies | api/v1/auth.py:114-116 | a family has one token for each number of rotations: it is a chain without branches |
| RotationChains.UnspentIsTail | api/v1/auth.py:114-116 | a family has at most one token that was not exchanged |
| RotationChains.OneActivePerFamily | api/v1/auth.py:114-116 | in every reachable state a family has at most one active row |
| RotationKills.RevokeIsExact | app/admin/infrastructure/repository.py:88-95 | the commit of a kill bumps the version and revokes exactly the rows of its subject committed when its revoke statement began, whatever ran in between; every other row stays as it is |
| RotationKills.KillLeavesActiveExactly | api/v1/auth.py:140-147 | the commit of a logout or reuse kill leaves an active row of the subject if and only if a login or refresh of the subject has committed since the revoke statement began and its token is not exchanged |
| RotationKills.RevokeReachesCommittedRows | app/admin/infrastructure/repository.py:88-95 | every row of the subject committed when the revoke statement began is revoked in every state after its transaction has committed |
| RotationLog.StatusIsFromLog | app/admin/infrastructure/repository.py:75-95 | in every reachable state the log of commits determines the status of every row: revoked if and only if a kill of its subject began to revoke after the row was committed, else rotated if and only if a refresh has exchanged it |
| RotationLog.ActiveIsFromLog | api/v1/auth.py:140-147 | in every reachable state a subject has an active row if and only if a login or refresh of it committed after its last committed revoke statement began and the token is not exchanged |
| RotationReplays.SpentTokenMovesOn | api/v1/auth.py:114-128 | a refresh that has yet to read the row of a token already exchanged, and is not aborted, ends with the subject at a later version and in one of three refusals, expired or not |
| RotationReplays.LostClaimDecides | api/v1/auth.py:122-128 | after a lost claim a kill begins if and only if the token has been exchanged and not revoked since; the refusal for expiry comes if and only if it was neither |
| RotationReplays.SecondKillExactly | api/v1/auth.py:117-126 | when a reuse kill commits, another refresh of the same token that ends later ends in a kill if and only if it was waiting to bump at that moment |
| RotationProgress.ClaimDecides | app/admin/infrastructure/repository.py:75-85 | the claim waits while another transaction holds the row; the row as committed by then is rotated if it is active and unexpired, and else the refresh goes on to read it |
| RotationProgress.AbortedMeansAbort | api/v1/auth.py:109-128 | in every run a transaction ends aborted only if it was aborted from outside: no statement gives up |
| RotationProgress.ReplayKillsUnlessAborted | api/v1/auth.py:109-131 | in every run, two refreshes of one token, unexpired when they began, that nobody aborts and that are over leave the token's version behind |
| RotationProgress.AbortUndoes | api/v1/auth.py:109-112 | a transaction aborted at any moment before its commit changes no table and holds nothing afterwards |
| RotationProgress.WaitsExactly | app/admin/infrastructure/repository.py:22-44 | in every reachable state a transaction can execute its next statement if and only if it does not wait for a row that another one holds (and its bump fits the column) |
| RotationProgress.VersionsFit | app/admin/domain/entity.py:14-16 | no version, committed or not, ever exceeds the 32-bit column |
| TokenUse.AcceptedExactly | app/core/security/auth.py:83-107 | an admin read accepts exactly the unexpired access tokens of the configured subject that carry the committed version |
| TokenUse.LoneRefreshSucceedsExactly | api/v1/auth.py:109-116 | a refresh that runs alone from any reachable quiet state succeeds if and only if its token is usable and its row unexpired, and then gives a usable and an accepted token |
| TokenUse.LoginGivesUsablePair | api/v1/auth.py:74-83 | a login that runs alone gives a usable refresh token and an access token that is accepted |
| RotationWitness.LogoutWaits | app/admin/infrastructure/repository.py:90-94 | the revoke statement waits for a row that a refresh in flight has rotated |
| RotationWitness.StaleActiveRowAfterLogout | api/v1/auth.py:145-146 | a run in which a logout commits and leaves an active row behind, which is not usable |
| RotationWitness.ReplaysKillTwice | api/v1/auth.py:117-126 | from every quiet state, two replays of a rotated current token that both read before either bumps have the effect of two kills |
| RotationWitness.OneTokenKillsTwice | api/v1/auth.py:117-126 | a run from a first login in which one token leads to two kills |
| AuthHandlers.AuthStore.UpsertAdmin | app/admin/infrastructure/repository.py:16-31 | inserts version 1 where the row is missing, changes nothing otherwise, and returns the current version |
| AuthHandlers.AuthStore.RecordRefreshToken | app/admin/infrastructure/repository.py:47-56 | adds exactly one active row |
| AuthHandlers.AuthStore.ClaimRefreshTokenRotation | app/admin/infrastructure/repository.py:66-85 | wins if and only if the row is there, active and unexpired; winning flips exactly that row, losing changes nothing |
| AuthHandlers.AuthStore.IncrementTokenVersion | app/admin/infrastructure/repository.py:34-44 | adds one to the version of that subject alone, or fails unchanged at the end of the column's 32 bits |
| AuthHandlers.AuthStore.RevokeRefreshTokens | app/admin/infrastructure/repository.py:88-95 | revokes every row of the subject and no other |
| AuthHandlers.AuthStore.Login | api/v1/auth.py:61-83 | refines `LoginCall`, which `LoginIsRun` places in the machine; bad credentials change nothing |
| AuthHandlers.AuthStore.Refresh | api/v1/auth.py:86-137 | refines `RefreshCall`, which `RefreshIsRun` places in the machine: all six branches, with the reuse committed before it raises |
| AuthHandlers.AuthStore.Logout | api/v1/auth.py:140-147 | refines `LogoutCall`, which `LogoutIsRun` places in the machine |
| SerialRuns.SerialFamilies | api/v1/auth.py:107-147 | in serial use every row not revoked carries the current version, revoked rows an older one, and each token leads to at most one kill |
| SerialRuns.SerialLoginIssues | api/v1/auth.py:74-83 | after any serial calls a login gives an active row and a pair of the current version |
| SerialRuns.ReplayStory | api/v1/auth.py:114-131 | login, refresh, replay of the first token: one kill, version 2, both rows revoked, and the successor token is refused |
| SerialRuns.LoginIsRun | api/v1/auth.py:61-83 | from every quiet state a login that runs alone is a run of the interleaved machine, ending quiet, with the same tables and answer and with exactly the token pair of that answer handed out |
| SerialRuns.RefreshIsRun | api/v1/auth.py:86-137 | the same for a refresh, in every branch |
| SerialRuns.LogoutIsRun | api/v1/auth.py:140-147 | the same for a logout |
| SerialRefinement.CallRefines | api/v1/auth.py:61-147 | each serial call takes a quiet state of the machine to one with the tables and tokens of the serial model |
| SerialRefinement.SerialRunIsRun | api/v1/auth.py:61-147 | every sequence of serial calls is a run of the interleaved machine from empty tables |
| SerialRuns.KillIsRun | app/admin/infrastructure/repository.py:88-95 | the bump and the row-by-row revoke, run alone, do to the tables what the serial kill does |
| Like.EscapeIsOnePass | app/post/infrastructure/repository.py:151 | the three replacements, one after another, escape each character of the query exactly once |
| Like.SingleChar | app/post/infrastructure/repository.py:154 | an unescaped underscore matches any one character, every ordinary character itself |
| Like.EscapeIsLiteral | app/post/infrastructure/repository.py:154 | the escape character makes whatever follows it literal |
| Like.UnescapedMatchesTooMuch | app/post/infrastructure/repository.py:150 | without the escaping, the queries `_` and `%` match a text that contains neither |
| Like.EscapingIsExact | app/post/infrastructure/repository.py:151-152 | for all texts and queries the pattern matches a text if and only if the text contains the query |
| Like.EscapingIsExactUpToCase | app/post/infrastructure/repository.py:151-157 | the same for ILIKE, up to case |
| Like.IllFormed | app/post/infrastructure/repository.py:154 | a pattern whose escape character is last, or stands before an ordinary character, is not well-formed |
| Like.PatternIsWellFormed | app/post/infrastructure/repository.py:152 | no query gives a pattern with a dangling or misplaced escape character |
| Like.PercentSkips | app/post/infrastructure/repository.py:152 | a leading `%` means that the rest matches some suffix of the text |
| Like.EscapedPrefix | app/post/infrastructure/repository.py:151-152 | an escaped query followed by `%` matches exactly the texts that begin with the query |
| Queries.OrderBySorts | app/post/infrastructure/repository.py:33 | ordering by two keys and a unique third one gives a strictly sorted list |
| Queries.OrderByIgnoresStorage | app/post/infrastructure/repository.py:60 | the sorted list does not depend on the order in which the table is stored |
| Queries.FilterOrderBy | app/post/infrastructure/repository.py:87-97 | selecting before or after sorting gives the same list |
| Queries.PagesPartition | app/post/infrastructure/repository.py:32-36 | pages 1 to n, one after another, are the first n * size elements: no repetition, no gap |
| Queries.HasNextIsExact | app/core/pagination.py:40 | `has_next` holds if and only if the next page is not empty |
| Blog.TagJoinSelects | app/post/domain/entity.py:27-43 | by the primary key of `post_tags` the tag join is a selection: no post comes twice |
| Blog.SelectionSelects | app/post/infrastructure/repository.py:19-30 | with any of the three conditions the query selects each matching post exactly once, so the total counts distinct posts |
| Blog.PaginatesMeans | app/core/pagination.py:27-41 | an answer of a paginated listing in plain terms: the slice from (page - 1) * size to page * size of the list, its length as total, and `has_next` exactly if the list goes on |
| Blog.CollationExists | app/post/infrastructure/repository.py:33 | there is an order of texts as the listings require it |
| Blog.ListAllPaginates | app/post/infrastructure/repository.py:10-38 | the admin listing: pages cut the matching posts, sorted by `updated_at` descending and id, into consecutive pieces; total and `has_next` are exact |
| Blog.ListPublishedPaginates | app/post/infrastructure/repository.py:40-65 | the public listing likewise, pinned posts first, then date descending, then id |
| Navigation.NavRefinesAdjacency | app/post/infrastructure/repository.py:99-141 | the two extremum queries find exactly the successor and predecessor in the sorted list of published posts |
| Navigation.NavEndpoint | app/post/application/service.py:59-63 | the lookup by id followed by the two queries answers with those neighbours for every published post |
| Navigation.NavNotFound | app/post/application/service.py:60-62 | 404 exactly for the ids of no published post |
| Navigation.PrevAndNextAreInverse | app/post/infrastructure/repository.py:105-141 | one post is the older neighbour of another if and only if the other is its newer neighbour |
| Navigation.WalkVisitsAll | app/post/infrastructure/repository.py:99-141 | following older neighbours from the newest post visits every published post exactly once, in order, and ends |
| Navigation.ListByTagIsExact | app/post/infrastructure/repository.py:87-97 | the posts of a tag are exactly the posts of status published paired with it, once each, by date descending, then id |
| Navigation.ListByTagFollowsWalk | app/post/infrastructure/repository.py:87-97 | the posts of a tag are those posts of the walk that have the tag, in the order of the walk |
| Search.ScoreIsRelevance | app/post/infrastructure/repository.py:153-157 | the CASE sum is 3, 2 and 1 for title, excerpt and content that contain the query up to case |
| Search.AndIsLeastOrIsGreatest | app/post/infrastructure/repository.py:158-165 | AND and OR are minimum and maximum in the order false, unknown, true |
| Search.NullContentIsUnknown | app/post/infrastructure/repository.py:158-165 | a published post without content that matches nowhere else makes the WHERE clause unknown |
| Search.SelectionAgreesWithScore | app/post/infrastructure/repository.py:153-166 | under three-valued logic, NULL content included, the WHERE clause holds exactly of published posts that score at least 1 |
| Search.SearchPaginates | app/post/infrastructure/repository.py:143-179 | the search pages through exactly the published posts that contain the query, strictly sorted by relevance, date descending and id, with exact total and `has_next` |
| LoginRateLimit.LimitedExactly | app/server.py:45 | exactly the POSTs to a path that ends in `/auth/login` are limited |
| LoginRateLimit.BucketsExactly | app/server.py:51 | different addresses are counted apart; a missing and an empty address are counted as "unknown" |
| LoginRateLimit.RecentIsSuffix | app/server.py:53 | what pruning keeps of an ascending history is its suffix inside the window |
| LoginRateLimit.PruneTwice | app/server.py:53 | pruning at an earlier time loses nothing that a later request has to count |
| LoginRateLimit.SpacedAppend | app/server.py:53-60 | an accept below the limit keeps any max + 1 consecutive accepts at least the window apart |
| LoginRateLimit.AgreesAppend | app/server.py:53-60 | the pruned list, with the accept appended, counts like the full history at every later time |
| LoginRateLimit.Limiter.constructor | app/server.py:30-40 | five attempts in 60 seconds by default, nothing recorded |
| LoginRateLimit.Install | app/server.py:163 | the limiter in use allows five attempts in 60 seconds and starts with nothing recorded |
| LoginRateLimit.Limiter.Dispatch | app/server.py:42-61 | 429 if and only if the full, never pruned history of the address holds max accepts in the last window; an accept is recorded for that address alone; a rejected attempt and every other request change nothing |
| LoginRateLimit.LimiterIsExact | app/server.py:51-60 | for every sequence of logins with a clock that does not run backwards the pruned table decides like the full history, whose accepts are spaced |
| Transactions.OpenStepsAreFlat | app/core/db/transactional.py:23-24 | inside an open transaction decorated calls, however nested and caught, only add their surviving writes |
| Transactions.OutermostCallDecides | app/core/db/transactional.py:20-26 | the outermost call commits all surviving writes when it returns and none when an exception escapes, and leaves the session idle |
| Transactions.AdminRequestCommits | app/core/security/auth.py:96-107 | an admin request that returns normally has committed all its writes, one that raises none |
| Transactions.ReadMakesCallJoin | app/core/security/auth.py:101-104 | a read over an idle session opens a transaction, and a decorated call after it joins and commits nothing |
| Transactions.CommitsExactlyWhenIdle | app/core/security/auth.py:100-106 | the writes of a decorated call survive the end of the request if and only if the session was idle when it began |
| Transactions.AsyncSession.Transactional | app/core/db/transactional.py:20-26 | the wrapper as it works on the session does what the step function says |
| Transactions.AsyncSession.Verify | app/core/security/auth.py:83-107 | whatever the read finds, the session is idle afterwards and nothing was committed |
| Transactions.AsyncSession.AdminEndpoint | app/core/security/auth.py:110-129 | the whole request on the session object commits exactly the surviving writes, and only if it returns normally |
| PostService.EnsureIsExact | app/tag/infrastructure/repository.py:52-66 | one row for each distinct name, the table grows by exactly the missing names and keeps its key, and asking again adds nothing |
| PostService.PartialUpdate | app/post/application/service.py:101-102 | the columns sent get the values sent and all others keep theirs |
| PostService.CreateKeeps | app/post/application/service.py:71-93 | creating keeps the primary and foreign keys |
| PostService.UpdateKeeps | app/post/application/service.py:95-112 | updating keeps them, with tags replaced and id renamed or not |
| PostService.DeleteKeeps | app/post/application/service.py:114-117 | deleting keeps them |
| PostService.PublishKeeps | app/post/application/service.py:119-124 | publishing keeps them |
| PostService.RunContinues | app/post/application/service.py:71-124 | a run does the four operations one after another, starting from empty tables |
| PostService.RunsKeepIntegrity | app/post/domain/entity.py:27-43 | over all runs of the four operations post ids stay unique and every pair names an existing post and tag |
| PostService.CreateGivesTags | app/post/application/service.py:71-93 | a post created has the id of the payload if that is not empty and else the slug of its title, stores the payload and has exactly its normalized names as tags, and the tag table grows by the missing ones; other posts keep rows and tags; conflict exactly for an id taken, changing nothing |
| PostService.UpdateMovesTags | app/post/application/service.py:95-112 | a rename carries exactly the post's tags, as just replaced, to the new id; no other post changes; 404 and conflict are exact and change nothing |
| PostService.UpdateSetsColumns | app/post/application/service.py:98-107 | the row updated has the values sent; when `updated_at` moves, and to whose clock, is exact |
| PostService.DeleteRemoves | app/post/application/service.py:114-117 | the post and its pairs are gone, the rows and tags of all others stay, no tag is deleted |
| PostService.PublishSetsStatus | app/post/application/service.py:119-124 | status and date of one row change, `updated_at` if they do, and nothing else; publishing again the same day changes nothing |
| PostService.Lookup | app/post/infrastructure/repository.py:75-77 | `exists` is true exactly of the ids some post has |
| PostStore.Store.EnsureTags | app/tag/infrastructure/repository.py:52-66 | adding the missing tags one by one is `Ensure` |
| PostStore.Store.CreatePost | app/post/application/service.py:71-93 | the method on the tables refines `Create` and keeps integrity |
| PostStore.Store.UpdatePost | app/post/application/service.py:95-112 | setting columns in a loop, replacing tags and checking the id last refines `Update`: a conflict found last undoes everything |
| PostStore.Store.DeletePost | app/post/application/service.py:114-117 | refines `Delete` and keeps integrity |
| PostStore.Store.PublishPost | app/post/application/service.py:119-124 | refines `Publish` and keeps integrity |
| TagCounts.JoinCount | app/tag/infrastructure/repository.py:31-41 | counting post by post through the inner join is counting pair by pair |
| TagCounts.EveryTagIsGroup | app/tag/infrastructure/repository.py:13-21 | the outer joins give every tag a group, tags without pairs included |
| TagCounts.GetCountIsExact | app/tag/infrastructure/repository.py:31-41 | `get_count` is the number of posts of status published paired with the tag |
| TagCounts.CountsAgree | app/tag/infrastructure/repository.py:11-41 | the count through two outer joins and a group, `get_count`, and the length of `list_by_tag` are equal |
| TagCounts.DetailIsConsistent | app/tag/application/service.py:19-30 | a tag's detail shows exactly its posts of status published, once each, by date descending, then id, and their number; 404 exactly for names that are no tag |
| TagCounts.TagListIsSorted | app/tag/infrastructure/repository.py:21 | tags come by count descending, then name ascending |
| TagCounts.TagListIsComplete | app/tag/infrastructure/repository.py:14-24 | every tag comes exactly once, those without posts too, with the count of its detail |
| TagCounts.CountsSumToPublishedPairs | app/tag/infrastructure/repository.py:11-24 | the counts sum to the number of pairs of `post_tags` whose post has status published |

## Left out

- RSA keys, JWT encoding, JWKS and bcrypt: library calls. Signatures are ideal: exactly the tokens handed out decode, until they expire, and jtis are fresh. Whether a login's credentials are right is an input.
- The prod branch of `require_admin` (a header set by a gateway) and the gateway middleware: one branch each. There the version is not checked again, so `RevocationIsFinal` for access tokens is about the other branch.
- Deadlocks and lock timeouts: which locks a failed re-check keeps is the database's affair. A transaction may abort at any step; that every transaction eventually ends is not stated.
- RotationKills.RevokeReachesCommittedRows: says nothing of rows not committed when the statement began, which later commits may change; `RevokeIsExact` does, for the moment of the commit.
- A database error that request code catches: Postgres then refuses further statements until a rollback, so `OpenStepsAreFlat` and `OutermostCallDecides` are about exceptions raised by the code itself (no modelled code catches one).
- The SELECT after the bump in `increment_token_version`: no caller uses its value.
- Expiry and pruning of rows by a later job: there is no such job in the repository.
- `slugify` is any function from strings to strings; that it is idempotent is neither used nor stated.
- Collation is any total order on ids and names; folding is per character, so foldings that change a text's length are not covered.
- Concurrent post and tag operations: the post service is serial here, so a primary-key failure in a race of two creates is not modelled.
- The `created_at` and `views` columns, the identity map and lazy loading of the ORM: no modelled operation depends on them.
- A page number that overflows OFFSET: excluded by one constant comparison, `MAX_PAGE`.
- Restarts and several workers of the limiter: it is in-process and says so.
- Pydantic shapes, routers, cache headers, error envelopes, the content service and configuration: settled by reading one branch.
