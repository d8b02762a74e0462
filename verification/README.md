# A verified model of the CH-TECH backend

This project models, in Dafny, the parts of the CH-TECH site's backend where correctness depends on
several functions, several requests or a whole run, and proves what they promise.

- **Refresh-token rotation.** `Rotation` is a state machine: any number of logins, refreshes, logouts
  and purges move from one database statement or commit to the next, and any of them may stop between
  two steps. The state holds the `refresh_tokens` rows, the row locks, a clock and a history that
  records which login each token descends from and which refresh obtained it. `RotationChains` holds
  the invariant, `RotationSafety` the guarantees over all runs, and `RotationLogins` ties every chain to a
  login that was accepted. `RotationLocks` splits
  `revoke_if_active` into its locking select and its commit, proves that every such run is a run of the
  atomic protocol, and that nothing deadlocks or runs forever. `RotationPurge` follows each run beside a
  shadow without purges, and says exactly when purging is invisible.
- **The repositories and use cases of `auth.py`, one call at a time.** `RefreshTokens` has the entity,
  the SQL adapter and the in-memory fake as classes, both proved against the same functions on the
  table; `RotationAlone` shows that the protocol's steps, run without interruption, leave the table and
  give the answers that the use cases' contracts describe. `Timestamps` covers the timezone conversion that
  the queries go through.
- **The rate limiter.** `RateLimit` interleaves INCR, EXPIRE and TTL of any number of clients on a key;
  `RateLimiter` is `check_rate_limit` as one call, and the construction of the keys.
- **The project listing.** `ProjectListing` is the SQL query under bag semantics (join, filters, order
  with open ties, offset and limit, `unique`) against filter, sort and slice; `Projects` has the
  sequence operations and says what the orders mean on the columns, `Paging` the reading of page after page,
  `Like` the LIKE matcher, `Text` the case folding, `Catalogue` the connection to `Store`. `Articles` compares
  the orders of the two article listings.
- **The relational store.** `Store` says what each use case answers and does, and what the database's
  constraints demand; `Repositories` has the repositories and use cases as methods that edit and commit;
  `StoreRaces` lets any other requests run between the reads and the commit of every request, which then
  writes only the columns and association rows that it has changed.
- **Value objects and seeding.** `Regex` is the part of Python's `re` that the value objects use; `Slugs`
  and `Emails` characterise the two patterns and Login's lookup; `Seed` is the seeding script.

Where the code does not do what its documentation says, the model follows the code and the exact
condition is proved:

- The comment on `purge_older_than` says that its two steps are no race concern
  (app/infrastructure/repositories/refresh_token_repository.py:94-97). A purge can in fact change the
  answer of a refresh: its row can go between the refresh's clock reading and its locking select, or
  between its commit and its re-read, and a logout that read the row earlier can write an older revocation
  time, which lets the purge take the row early. `RotationPurge.PurgeInvisibleExactly` gives the exact
  condition for a run, `RotationPurge.RetentionNeeded` the exact retention for all runs: twice the time
  that a request may take between its clock reading and its statements, or, if that is a token lifetime or
  more, that time and a lifetime less one unit. The count that a purge reports is exact if and only if no other purge has
  taken a selected row (`RotationSafety.PurgeReportsExactly`).
- `RefreshToken` says that revoking again does not move `revoked_at` (app/domain/refresh_token.py:3-6).
  That holds one call at a time (`RefreshTokens.FirstRevocationKept`). Under concurrency the time stays for
  good if and only if no logout in flight that read the row unrevoked is about to write another one
  (`RotationSafety.RevocationStaysExactly`); two logouts are enough to move it
  (`RotationSafety.RevocationMoves`), though never to null (`RotationSafety.SpentForever`).
- `check_rate_limit` promises `limit` hits inside one window, and docs/adr/0007-redis-rate-limiting.md:41
  speaks of a sliding window. A stretch of one window's length admits up to `2 * limit - 1` requests, and
  that bound is reached (`RateLimit.SlidingBound`, `RateLimit.SlidingBoundReached`). A key refuses every request for ever if and
  only if the client that began its life stopped between INCR and EXPIRE and the limit is reached
  (`RateLimit.BlocksForeverExactly`, `RateLimit.OneStopBlocks`).
- The in-memory fake's substring search is not the adapter's LIKE for terms with `%`, `_` or a backslash
  (`Like.SearchAgreesExactly`). Its order of the admin's articles is compatible with the database's if and
  only if no draft was created after a publication date (`Articles.AdminSharesAnOrder`), and always one of
  the database's if and only if, besides, none was created at one (`Articles.AdminOrders`,
  `Articles.DraftsDisagree`).
- `seed.main` is not idempotent from every store: `Seed.Script.Run` says exactly which two situations stop
  it. It also stores an email that it does not validate, and then nobody can log in
  (`Seed.SeededAdminLogsIn`, `Seed.UnvalidatedAdmin`).
- An update of a project or an article translates the database's error only around its commit
  (app/infrastructure/repositories/project_repository.py:175-195). The columns are set before the query
  for the technologies, and the session, which flushes before a query
  (app/db/session.py:24 leaves that on), sends them there: with technologies asked for, a slug in use
  surfaces as the database's own error and not as a conflict (`Store.RenamedWithTechnology`).
- The article repository translates IntegrityErrors only
  (app/infrastructure/repositories/article_repository.py:123-126), and MySQL reports a violated CHECK
  constraint as an OperationalError (tests/test_models_article.py:54-57): an article published without a
  date surfaces as that error. Two updates that are both sound can lead to it (`StoreRaces.PublishRaceFails`).
  `Store.ErrorsThatEscape` says exactly which database errors reach a caller in sequential runs.
- Page after page, the listing sorts by one column. If rows with equal keys stand on either side of the end
  of a page, the queries may show one twice and another never; otherwise every project is shown once
  (`ProjectListing.PagesShowAllExactly`, `Paging.TwoTied`).
- When a technology is deleted between the load and the commit of a new project, the caller is told of a
  slug conflict although the slug is free (`StoreRaces.ProjectRaceFails`).

What the model takes for granted: hashing a token is injective and new raw tokens, UUIDs and rows are
fresh, so that nobody presents a token before it is issued; the clock does not go
back; a commit is an atomic publication that checks all constraints; a row lock is held from the locking select to the commit; nobody but the limiter touches its Redis keys.

## Model

| member | source | states |
|---|---|---|
| RotationChains.InvNext | app/application/use_cases/auth.py:130-170 | every step of every request keeps the chain invariant: each token has one place, all but the last of a chain are spent, rows belong to the user of their chain |
| RotationChains.InvRun | app/application/use_cases/auth.py:130-170 | so does every run |
| RotationChains.UnspentIsLast | app/application/use_cases/auth.py:144-149 | a token that no refresh has obtained is the last of its chain |
| RotationSafety.SingleChain | app/application/use_cases/auth.py:130-170 | in every interleaving the tokens of one login form one chain without repeats, of one user; each but the last is revoked or purged; each was inserted by the one request that spent its predecessor |
| RotationSafety.RowsAreChained | app/application/use_cases/auth.py:32-50 | every stored row belongs to exactly one login's chain |
| RotationSafety.RefreshAnswer | app/application/use_cases/auth.py:150-170 | a refresh answers only with a token that it inserted itself, as the successor of the token it spent |
| RotationSafety.ObtainedOnce | app/application/ports/refresh_token_repository.py:28-38 | over a whole run at most one request obtains a given token, purged in between or not |
| RotationSafety.GoneRowFails | app/infrastructure/repositories/refresh_token_repository.py:60-66 | a row that has gone when a request re-reads or saves it is an error, not a refusal, and nothing else changes |
| RotationSafety.SpentStep | app/infrastructure/repositories/refresh_token_repository.py:60-66 | no step, not even logout's unconditional save, makes a revoked or removed token usable |
| RotationSafety.SpentForever | app/domain/refresh_token.py:27-29 | over every run a revocation is never undone and a removed row never returns |
| RotationSafety.RevocationStaysExactly | app/application/use_cases/auth.py:103-113 | a revocation time stays in every run that keeps the row, if and only if every logout in flight that read the row unrevoked has already fixed that same time |
| RotationSafety.RevocationMoves | app/domain/refresh_token.py:3-6 | two logouts that both read an unrevoked row write one time and then another |
| RotationSafety.PurgeReportsExactly | app/infrastructure/repositories/refresh_token_repository.py:102-112 | in any state a purge's delete reports exactly the rows it removes, if and only if no selected row has gone since its select |
| RotationSafety.SinglePurgerReports | app/infrastructure/repositories/refresh_token_repository.py:93-112 | with no other purger's delete in between, whatever else runs, the reported count is the number of rows removed |
| RotationSafety.TwoPurgersMiscount | app/infrastructure/repositories/refresh_token_repository.py:105-112 | from any state with something to purge, two purge jobs can select the same rows: the second reports them all and removes none |
| RotationSafety.DeadChainStaysDead | app/application/use_cases/auth.py:143-158 | a chain with no active token and no refresh in flight never gets an active token, nor any new token, again |
| RotationSafety.ActiveIsLast | app/application/use_cases/auth.py:143-158 | an active token is the last of its chain |
| RotationSafety.ActiveAtMostLogins | app/application/use_cases/auth.py:82-93 | a user never has more active tokens than logins that have begun a chain |
| RotationLogins.ChainsBeginAccepted | app/application/use_cases/auth.py:76-93 | after every run each chain belongs to a login that began accepted, for the chain's user |
| RotationLogins.RefusedNeverIssues | app/application/use_cases/auth.py:76-81 | after every run a login that began refused has been told so, and no token, stored or not, was inserted by it or descends from one that was |
| RotationLogins.AcceptedAnswers | app/application/use_cases/auth.py:82-93 | a login that began accepted is never refused: it answers with the first token of its own chain, which is its user's, or it fails |
| RotationLogins.IssuerAnswers | app/application/use_cases/auth.py:32-50 | whoever has inserted a token is about to answer with it, has answered with it or has failed: a refused request has inserted none |
| RotationLogins.ActiveAtMostAccepted | app/application/use_cases/auth.py:76-93 | after every run a user has at most as many active tokens as the schedule has accepted logins of that user |
| RotationLocks.LocksStep | app/infrastructure/repositories/refresh_token_repository.py:71-91 | every lock has exactly the holder that is between select and commit, and a row found active stays active until that commit |
| RotationLocks.StepSimulates | app/infrastructure/repositories/refresh_token_repository.py:71-91 | each locking step is no step or one step of the atomic protocol |
| RotationLocks.RunSimulates | app/infrastructure/repositories/refresh_token_repository.py:71-91 | each locking run is an atomic run with the same outcome |
| RotationLocks.LockingRefinesAtomic | app/application/ports/refresh_token_repository.py:28-38 | every state that the locking protocol reaches is, up to locks, one that the atomic protocol reaches, with the same rows, history and answers |
| RotationLocks.FineObtainedOnce | app/infrastructure/repositories/refresh_token_repository.py:71-91 | with row locks the commit of a found token never fails, and no later commit of the run obtains it again |
| RotationLocks.NoDeadlock | app/infrastructure/repositories/refresh_token_repository.py:82-91 | while a request is running, some running request can move |
| RotationLocks.OneLockEach | app/infrastructure/repositories/refresh_token_repository.py:82-91 | no request holds two row locks |
| RotationLocks.StepDescends | app/infrastructure/repositories/refresh_token_repository.py:68-91 | every step of a begun request lowers that request's rank and touches no other request |
| RotationLocks.RunsEnd | app/infrastructure/repositories/refresh_token_repository.py:68-91 | n requests take at most 8 * n steps, whatever the schedule |
| RotationPurge.InvisibleExactly | app/infrastructure/repositories/refresh_token_repository.py:93-112 | leaving out the purge steps changes no answer at any point of a run exactly if no step of a login or refresh misses a row it needs |
| RotationPurge.PurgeInvisibleExactly | app/application/use_cases/auth.py:125-127 | the same from the empty table, and the schedule without its purges then runs with the same answers |
| RotationPurge.PurgeInvisibleWhenTimely | app/application/use_cases/auth.py:125-127 | with a retention of at least the requests' lateness and the slack (the lateness again, or a lifetime less one if that is shorter), erasing every purge step leaves every login's and refresh's answer unchanged |
| RotationPurge.StaleRun | app/infrastructure/repositories/refresh_token_repository.py:60-66 | for every smaller retention there is a run in which a purge, misled by a stale logout where tokens live at all, makes a request miss its row |
| RotationPurge.RetentionNeeded | app/infrastructure/repositories/refresh_token_repository.py:94-97 | for every lateness and lifetime, purging is invisible in all runs if and only if the retention is at least the lateness and the slack, which is twice the lateness if that is below the lifetime |
| RefreshTokens.RefreshToken.Revoke | app/domain/refresh_token.py:27-29 | revocation is one way, and a second one does not move the time |
| RefreshTokens.SqlRepository.Create | app/infrastructure/repositories/refresh_token_repository.py:30-51 | inserts an active row, or fails on a hash in use and changes nothing |
| RefreshTokens.SqlRepository.GetByTokenHash | app/infrastructure/repositories/refresh_token_repository.py:53-58 | finds a row exactly if one has the hash |
| RefreshTokens.SqlRepository.Save | app/infrastructure/repositories/refresh_token_repository.py:60-66 | writes the entity's revocation time into its row, and fails exactly if the row is gone |
| RefreshTokens.SqlRepository.RevokeIfActive | app/infrastructure/repositories/refresh_token_repository.py:68-91 | revokes exactly the active row with the hash, and answers None exactly if there is none |
| RefreshTokens.SqlRepository.PurgeOlderThan | app/infrastructure/repositories/refresh_token_repository.py:93-112 | removes exactly the rows expired or revoked before the cutoff, and counts them |
| RefreshTokens.InMemoryRepository.Create | tests/application/fakes.py:483-504 | adds an active token |
| RefreshTokens.InMemoryRepository.GetByTokenHash | tests/application/fakes.py:506-510 | the scan finds a token exactly if one has the hash, and hands out the stored object itself |
| RefreshTokens.InMemoryRepository.Save | tests/application/fakes.py:512-513 | stores the entity, even one that has been purged |
| RefreshTokens.InMemoryRepository.RevokeIfActive | tests/application/fakes.py:515-522 | under unique hashes the scan revokes what the SQL adapter revokes |
| RefreshTokens.InMemoryRepository.Doomed | tests/application/fakes.py:525-530 | lists exactly the ids that the SQL condition selects, each once |
| RefreshTokens.InMemoryRepository.PurgeOlderThan | tests/application/fakes.py:524-533 | leaves what the SQL adapter leaves, and counts what it removes |
| RefreshTokens.IssueRefreshToken | app/application/use_cases/auth.py:32-50 | inserts one active row that expires after ttl, or changes nothing |
| RefreshTokens.Login | app/application/use_cases/auth.py:61-93 | adds one row, for a user who has the normal form of the typed email, is active and has this password; unknown user, wrong password and inactive user are refused alike, without a change |
| RefreshTokens.Refresh | app/application/use_cases/auth.py:136-170 | the presented token is spent whatever the answer; an answer comes with exactly one new token for the same user; refused exactly if no active token with this hash belongs to an active user |
| RefreshTokens.Logout | app/application/use_cases/auth.py:100-113 | revokes the caller's own token keeping its first time; refused, without a change, exactly if the token is unknown or not the caller's |
| RefreshTokens.PurgeExpired | app/application/use_cases/auth.py:125-127 | exactly the rows survive, unchanged, that neither expired nor were revoked before now - retention; those of the usual lifetime were issued at or after now - (retention + ttl); the count is the number of rows removed |
| RefreshTokens.FirstRevocationKept | app/domain/refresh_token.py:3-6 | over every sequential run a revoked row that is still there is unchanged |
| RefreshTokens.GoneForGood | app/infrastructure/repositories/refresh_token_repository.py:93-112 | a purged row does not come back |
| RefreshTokens.PurgeTwice | app/infrastructure/repositories/refresh_token_repository.py:93-112 | purging at an earlier cutoff and then a later one is purging at the later one |
| RefreshTokens.RevokeByHash | app/infrastructure/repositories/refresh_token_repository.py:68-91 | the adapter's conditional revocation, seen by hash, is the protocol's step |
| RefreshTokens.UsableByHash | app/infrastructure/repositories/refresh_token_repository.py:75-82 | the locking select finds a row exactly if the protocol finds the token usable |
| RefreshTokens.PurgeByHash | app/infrastructure/repositories/refresh_token_repository.py:98-110 | the adapter's purge, seen by hash, is the protocol's |
| RotationAlone.LoginAlone | app/application/use_cases/auth.py:76-93 | an uninterrupted login that is accepted answers with a new token, and its row, the one of `RefreshTokens.Login`, and a chain of its own are all that is added; one that is refused changes nothing |
| RotationAlone.RefreshAlone | app/application/use_cases/auth.py:136-170 | an uninterrupted run of the protocol's refresh steps on an active user's active token ends with the table and the answer of `RefreshTokens.Refresh` |
| RotationAlone.RefusedAlone | app/application/use_cases/auth.py:150-158 | any other refresh ends refused, with the token spent if it was active |
| RotationAlone.LogoutAlone | app/application/use_cases/auth.py:100-113 | an uninterrupted logout ends as `RefreshTokens.Logout` does, for known and unknown tokens |
| RotationAlone.PurgeAlone | app/application/use_cases/auth.py:125-127 | an uninterrupted purge ends with the table of `RefreshTokens.PurgeExpired`, and counts the rows it removed |
| Timestamps.RoundTrip | app/db/types.py:32-42 | an aware datetime of any offset comes back as the same instant in UTC; a naive one is taken for UTC |
| Timestamps.ClockAhead | app/db/types.py:32-42 | what a clock shows that is ahead of UTC comes back as the earlier UTC time |
| Timestamps.OrderPreserved | app/db/types.py:32-37 | comparing stored columns is comparing instants |
| Timestamps.QueriesAgree | app/domain/refresh_token.py:24-25 | for every token, time and offset the SQL predicates agree with `is_active` and with the fake's purge test, and with the protocol's predicates |
| RateLimit.InvRun | app/core/rate_limit.py:22-34 | in every interleaving lives of the key begin at least a window apart, and a hit's count is its position in its life |
| RateLimit.SlidingBound | app/core/rate_limit.py:22-34 | any half-open stretch of one window's length admits at most 2 * limit - 1 requests per key, whichever clients stop |
| RateLimit.SlidingBoundReached | app/core/rate_limit.py:22-34 | for every limit >= 1 and every window of one second or more some run admits exactly that many, on a clock that divides a second |
| RateLimit.ExpireIsOwedOnce | app/core/rate_limit.py:28-30 | a key without a deadline has exactly one client owing it an EXPIRE, the one whose hit began its life; no other key has any |
| RateLimit.WindowNeverExtended | app/core/rate_limit.py:28-30 | a deadline once set stays until it is reached; no hit, admitted or blocked, moves it |
| RateLimit.OrphanBlocksForever | app/core/rate_limit.py:28-34 | if that client stops first and the limit is reached, every later request is refused forever |
| RateLimit.BlocksForeverExactly | app/core/rate_limit.py:28-34 | a key refuses every request after every schedule, if and only if that has happened: otherwise some schedule leads to an admission |
| RateLimit.OneStopBlocks | app/core/rate_limit.py:28-30 | one INCR and one stop reach such a state for a limit of one |
| RateLimit.KthHit | app/core/rate_limit.py:28-34 | the k-th hit of a life passes only if k <= limit and is refused only if k > limit, with at least a second to wait |
| RateLimit.WaitsForDeadline | app/core/rate_limit.py:32-34 | just after the TTL of a refused client, now plus the wait it is told is the key's deadline: the key outlives every shorter wait, and after this one the next hit begins a new life |
| RateLimit.AdmittedAfterExpiry | app/core/rate_limit.py:28-32 | with limit >= 1 the first hit after expiry is never refused, whatever others do before its EXPIRE, and that EXPIRE gives the life it began a full window |
| RateLimiter.Redis.CheckRateLimit | app/core/rate_limit.py:22-34 | one call is admitted exactly if fewer than limit hits came before it in this life, is counted either way, starts the window only with the first, and touches no other key |
| RateLimiter.KeysDistinct | app/core/rate_limit.py:43-47 | scopes without a colon share a counter exactly if scope and address are the same |
| RateLimiter.KeysCollide | app/core/rate_limit.py:43-47 | with a colon in a scope two clients can share a counter |
| Like.PlainIsSubstring | app/infrastructure/repositories/project_repository.py:92-99 | a pattern %term% without special characters matches exactly the strings that contain the term |
| Like.SubstringMatches | app/infrastructure/repositories/project_repository.py:92-99 | wildcards in the term only add matches |
| Like.LeadingAny | app/infrastructure/repositories/project_repository.py:99 | a percent sign stands for any run of characters |
| Like.UnderscoreIsAnyOne | app/infrastructure/repositories/project_repository.py:99 | an underscore stands for any one character |
| Like.EscapedIsItself | app/infrastructure/repositories/project_repository.py:99 | after a backslash any character stands for itself |
| Like.SearchExactly | app/infrastructure/repositories/project_repository.py:92-99 | the fake finds exactly the titles of which some stretch differs from the term in the case of letters only; so does the adapter for terms without special characters |
| Like.SearchAgreesExactly | tests/application/fakes.py:73-75 | adapter and fake find the same titles, for all titles, if and only if the term has no percent sign, underscore or backslash |
| Like.SearchFindsMore | app/infrastructure/repositories/project_repository.py:92-99 | without a backslash the adapter finds every title that the fake finds |
| Projects.StableSortSorts | tests/application/fakes.py:77-80 | the stable sort orders and keeps every row |
| Projects.SortedExactly | app/infrastructure/repositories/project_repository.py:101-105 | sorted means oldest first, or by title: of two rows the title of the first begins that of the second or is smaller where they first differ |
| Projects.TiesStay | tests/application/fakes.py:77-80 | in the fake, rows with the same key keep the order in which they are stored |
| Projects.SortedOnce | app/infrastructure/repositories/project_repository.py:101-105 | rows without equal keys can be ordered in one way only |
| Projects.FilterSort | tests/application/fakes.py:61-80 | filtering and stable sorting commute |
| Projects.PagesAreAPrefix | tests/application/fakes.py:82-83 | pages 1 to n are the first n * limit rows, none lost or repeated |
| ProjectListing.JoinIsFilter | app/models/associations.py:6-16 | unique technology names and the association's primary key make the join a filter, without duplicates |
| ProjectListing.RowsAgree | app/infrastructure/repositories/project_repository.py:81-99 | for every search term the query's rows, before ordering, are the projects that the filters ask for, each once |
| ProjectListing.PageIsDistinct | app/infrastructure/repositories/project_repository.py:111 | `unique` is the identity on every page of every order of the query's rows |
| ProjectListing.ListIsFilterSortSlice | app/infrastructure/repositories/project_repository.py:78-111 | for every search term and whatever the ties, the database may answer exactly what filtering, sorting and slicing the projects may answer |
| ProjectListing.RowsAskedFor | app/infrastructure/repositories/project_repository.py:81-99 | the fake's rows, and for plain terms the query's, are those with the visibility, featured flag, status, technology and title asked for |
| ProjectListing.AnswerShows | app/infrastructure/repositories/project_repository.py:78-111 | whatever the database answers is at most `limit` rows asked for, oldest first or by title, and the first page leaves one out only for `limit` others that do not come after it |
| ProjectListing.OldestFirst | app/infrastructure/repositories/project_repository.py:101-108 | on pages of one, the project shown first is no younger than any other asked for |
| ProjectListing.WantedIsSought | tests/application/fakes.py:61-75 | for search terms without special characters the fake keeps exactly the query's rows |
| ProjectListing.FakeAgrees | tests/application/fakes.py:57-83 | for such terms the fake's answer is one of the database's, and the only one if no keys tie |
| ProjectListing.PublicIsSubsequence | tests/application/fakes.py:61-62 | the public rows are the public part of the admin's rows, in the query and in the fake's sorted list |
| ProjectListing.PagesShowAllExactly | app/infrastructure/repositories/project_repository.py:101-108 | however the database breaks ties in each page's query, the pages together show every project sought once, if and only if no two rows with equal keys stand on either side of the end of a page |
| ProjectListing.PagesShowAll | app/infrastructure/repositories/project_repository.py:101-108 | if no keys tie, the pages together are the one sorted list of the projects sought |
| Paging.SamePrefix | app/infrastructure/repositories/project_repository.py:104-108 | without a tie at a cut, every order has the same rows before it |
| Paging.TwoTied | app/infrastructure/repositories/project_repository.py:101-108 | of two projects with equal keys, on pages of one, the first may be shown twice and the second never |
| ProjectListing.InMemoryProjectRepository.Offered | tests/application/fakes.py:60-68 | the visibility and technology filters of the fake keep exactly the rows they should |
| ProjectListing.Matching | tests/application/fakes.py:69-75 | so do the remaining ones |
| ProjectListing.InMemoryProjectRepository.List | tests/application/fakes.py:57-83 | the fake's method computes that answer |
| Catalogue.UsesIsLinked | app/models/associations.py:6-16 | a project uses a technology name exactly if an association row leads to a technology of that name |
| Catalogue.ListAfterAnyRun | app/infrastructure/repositories/project_repository.py:78-111 | after every run of creations, updates and deletions the listing is filter, sort and slice over what the store holds |
| Catalogue.SavedIsListed | app/infrastructure/repositories/project_repository.py:178-183 | wherever a listing shows a project that has just been saved, it shows the slug and the visibility it was saved with, and to visitors only if that is public |
| Articles.MakeArticle | app/domain/article.py:30-32 | refuses exactly a published article without a date, which is what the CHECK constraint refuses |
| Articles.PublicOrdersAgree | tests/application/fakes.py:361-371 | on the public list the fallback to created_at is never used, and both implementations allow the same orders |
| Articles.LatestFirst | app/infrastructure/repositories/article_repository.py:70-80 | the public list has exactly the published articles, each with a date, the latest first, in both implementations |
| Articles.AdminSharesAnOrder | app/infrastructure/repositories/article_repository.py:67-80 | the fake and the database have an order of the admin list in common, if and only if no draft was created after a publication date |
| Articles.AdminOrders | tests/application/fakes.py:367-369 | every order of the fake is one of the database's, if and only if, besides, no draft was created at a publication date |
| Articles.DraftsDisagree | tests/application/fakes.py:367-369 | two pairs of articles for which these fail |
| Store.ProjectSaves | app/infrastructure/repositories/project_repository.py:154-158 | the database refuses a saved project exactly if another has its slug |
| Store.ProjectDeletes | app/infrastructure/repositories/project_repository.py:213-220 | it refuses a project's deletion exactly while a case study or testimonial refers to it |
| Store.ClientDeletes | app/infrastructure/repositories/client_repository.py:84-91 | it refuses a client's deletion exactly while a project or testimonial refers to it |
| Store.TechnologyDeletes | app/infrastructure/repositories/technology_repository.py:80-90 | it never refuses a technology's deletion: its links to projects and to articles go with it |
| Store.TechnologySaves | app/models/technology.py:19-21 | it refuses a saved technology exactly if another has its name |
| Store.TestimonialSaves | app/application/use_cases/testimonials.py:30-45 | it accepts a testimonial exactly if the reference checks pass |
| Store.ArticleSaves | app/models/article.py:27-39 | it refuses a saved article exactly if another has its slug or it is published without a date |
| Store.ArticleDeletes | app/infrastructure/repositories/article_repository.py:164-179 | it never refuses an article's deletion |
| Store.DoneIsCommitted | app/application/use_cases/testimonials.py:48-80 | each use case answers Done exactly if its row is there and the database accepts the change |
| Store.RunKeepsIntegrity | app/models/associations.py:6-16 | every run keeps all foreign keys, association rows, unique slugs and unique names |
| Store.ErrorsThatEscape | app/infrastructure/repositories/article_repository.py:121-126 | in sequential runs an OperationalError reaches a caller exactly for an article, created or updated, that is published without a date, and an IntegrityError exactly if the database refuses a technology's name, or the columns of a project or article updated together with technologies; no reference ever does it |
| Store.NotFoundExactly | app/application/use_cases/case_studies.py:45-68 | an answer of not found names the first row, in the order of the lookups, that is missing, and is given exactly if one is |
| Store.SavesColumns | app/infrastructure/repositories/project_repository.py:175-190 | a saved project has the slug and visibility asked for and keeps its client, no other row changes, and visitors find it under its slug, alone, exactly if it is public |
| Store.SavesArticleColumns | app/infrastructure/repositories/article_repository.py:143-154 | a saved article has the slug, publication flag and date asked for, and no other row changes |
| Store.SavesOtherColumns | app/infrastructure/repositories/client_repository.py:62-82 | so have a client, a technology and a case study their name or project |
| Store.SavesReferences | app/infrastructure/repositories/testimonial_repository.py:53-73 | a saved testimonial points at the client and project asked for, which exist, and no other row changes |
| Store.RenamedWithTechnology | app/infrastructure/repositories/project_repository.py:175-195 | a project renamed to a slug in use is a conflict without technologies, and the database's error with one |
| Store.OneRowPerSlug | app/infrastructure/repositories/project_repository.py:116-126 | under unique slugs a lookup sees at most one row |
| Store.SlugFindsOne | app/infrastructure/repositories/project_repository.py:113-126 | after every run slug lookup sees at most one row, and sees it exactly if it is there and may be shown |
| Store.DeletesOwnLinks | app/infrastructure/repositories/technology_repository.py:88-89 | deleting a project, an article or a technology removes its row, exactly its own association rows, and nothing else |
| Store.SavesAskedTechnologies | app/infrastructure/repositories/project_repository.py:68-76 | a saved project has exactly the existing ones of the technologies asked for; other projects' links and its own client stay |
| Store.SavesAskedMentions | app/infrastructure/repositories/article_repository.py:57-65 | so does a saved article |
| Store.SavingAgain | app/infrastructure/repositories/project_repository.py:163-198 | saving a project or an article again changes nothing |
| Store.NewIsUnreferenced | app/infrastructure/repositories/project_repository.py:137-161 | nothing refers to what has just been created, except its own links |
| Store.CreateThenDelete | app/infrastructure/repositories/project_repository.py:200-220 | deleting what has just been created succeeds and restores the store, links included |
| Store.JoinShowsEachOnce | app/infrastructure/repositories/case_study_repository.py:32-53 | after every run the visibility join shows each case study of a public project once, with its project, and drops only those of private projects |
| StoreRaces.CommitExactly | app/infrastructure/repositories/project_repository.py:192-195 | the statement-by-statement verdict on a commit is Done exactly if the rows it changes are there, those it inserts are not, and the result meets every constraint |
| StoreRaces.CommittedProject | app/infrastructure/repositories/project_repository.py:175-193 | a committed update leaves slug and visibility as asked if they differ from what was read, and otherwise as they are at the commit; client and other rows as they are |
| StoreRaces.CommittedArticle | app/infrastructure/repositories/article_repository.py:143-158 | so for an article's slug, publication flag and date |
| StoreRaces.CommittedNames | app/infrastructure/repositories/client_repository.py:62-82 | for a client's and a technology's name |
| StoreRaces.CommittedReferences | app/infrastructure/repositories/testimonial_repository.py:53-73 | for a case study's project and a testimonial's client and project |
| StoreRaces.CommittedLinks | app/infrastructure/repositories/project_repository.py:68-76 | and for each link of a project to a technology; one to drop is still there at the commit, one to add is not yet |
| StoreRaces.CommittedMentions | app/infrastructure/repositories/article_repository.py:57-65 | and of an article |
| StoreRaces.CommittedDeletion | app/infrastructure/repositories/technology_repository.py:80-90 | a committed deletion of a project, an article or a technology takes exactly its own association rows, all of which it had read |
| StoreRaces.ReadsRefuseExactly | app/application/use_cases/case_studies.py:47-50 | before its commit a request is refused exactly if a row that it looks up is missing, and is told the first |
| StoreRaces.RacesKeepIntegrity | app/application/use_cases/testimonials.py:48-80 | the constraints hold in every interleaving of any requests, each split into its reads and its commit |
| StoreRaces.AloneIsWhole | app/application/use_cases/case_studies.py:53-69 | a request that nothing interrupts answers, and leaves the store, as `Store` says |
| StoreRaces.SteadyRun | app/application/use_cases/case_studies.py:47-50 | what a save has checked stays good until a commit disturbs it |
| StoreRaces.StoredUnlessDisturbed | app/application/use_cases/testimonials.py:55-80 | a checked creation or update is stored with what it changed, or is told that the CHECK constraint or a uniqueness constraint refuses it, unless a commit in between deletes its row or a row it points at or touches an association row it changes |
| StoreRaces.StudyRaceFails | app/application/use_cases/case_studies.py:47-50 | a project deleted between the check and the commit of a case study surfaces as a database error |
| StoreRaces.ProjectRaceFails | app/infrastructure/repositories/project_repository.py:137-158 | a technology deleted between the load and the commit of a project surfaces as a slug conflict, and the slug is free |
| StoreRaces.UpdateRaceFails | app/application/use_cases/case_studies.py:61-69 | a case study deleted while it is updated surfaces as the session's error, and nothing is stored |
| StoreRaces.PublishRaceFails | app/infrastructure/repositories/article_repository.py:143-159 | one request publishes an article while another takes its date away: both are sound, and the CHECK constraint's error reaches the first |
| Repositories.ProjectRepository.GetBySlug | app/infrastructure/repositories/project_repository.py:113-126 | never raises on two rows, and finds exactly the row that may be shown |
| Repositories.ProjectRepository.Create | app/infrastructure/repositories/project_repository.py:137-161 | the answer and the new store that `Store` describes; a conflict changes nothing |
| Repositories.FlushDecides | app/infrastructure/repositories/project_repository.py:175-190 | the columns that are flushed alone decide whether the database accepts an update of a project |
| Repositories.ProjectRepository.Update | app/infrastructure/repositories/project_repository.py:163-198 | likewise, or not found; flushed by the query for technologies, a refusal is not translated; the client is kept |
| Repositories.ProjectRepository.Delete | app/infrastructure/repositories/project_repository.py:200-220 | likewise, refused exactly while referenced |
| Repositories.ArticleRepository.Create | app/infrastructure/repositories/article_repository.py:106-129 | a slug in use is a conflict; the CHECK constraint's error escapes; both change nothing |
| Repositories.ArticleRepository.Update | app/infrastructure/repositories/article_repository.py:131-162 | likewise, or not found; flushed by the query for technologies, a slug in use is not translated |
| Repositories.CaseStudyRepository.Create | app/infrastructure/repositories/case_study_repository.py:55-67 | without a check of its own: the foreign key decides |
| Repositories.CaseStudyRepository.Update | app/infrastructure/repositories/case_study_repository.py:69-88 | likewise, or not found |
| Repositories.TestimonialRepository.Create | app/infrastructure/repositories/testimonial_repository.py:38-51 | without a check of its own: the foreign keys decide |
| Repositories.TestimonialRepository.Update | app/infrastructure/repositories/testimonial_repository.py:53-73 | likewise, or not found |
| Repositories.CreateCaseStudy | app/application/use_cases/case_studies.py:42-50 | with its check first, run alone, it never meets the foreign key |
| Repositories.UpdateCaseStudy | app/application/use_cases/case_studies.py:53-69 | likewise; the case study is looked up before the project |
| Repositories.CreateATestimonial | app/application/use_cases/testimonials.py:48-60 | with its checks first, run alone, it never meets a foreign key |
| Repositories.UpdateATestimonial | app/application/use_cases/testimonials.py:63-80 | likewise; the references are checked before the testimonial is looked up |
| Regex.Anchored | app/domain/value_objects.py:33 | under fullmatch the anchors change nothing: a newline at the end is not skipped |
| Slugs.AlphanumericExactly | app/domain/value_objects.py:12 | the characters of a segment are the 26 small letters and the 10 digits |
| Slugs.SlugExactly | app/domain/value_objects.py:45-47 | a slug is accepted exactly if it is non-empty, over [a-z0-9-], with no leading, trailing or doubled hyphen |
| Slugs.SlugIsWords | app/domain/value_objects.py:12 | equivalently, exactly if it is a hyphen-join of non-empty alphanumeric words, which are those that splitting gives |
| Slugs.JoinOfSplit | app/domain/value_objects.py:12 | joining what splitting gives restores every string |
| Slugs.SplitOfJoin | app/domain/value_objects.py:12 | splitting a join of hyphen-free words restores them |
| Text.LowerExactly | app/domain/value_objects.py:32 | lowering leaves no capital and changes nothing but case; strings without capitals are those it leaves alone; two strings are equal lowered exactly if they differ in nothing but pairs of a capital and its small letter |
| Emails.SpacesExactly | app/domain/value_objects.py:32 | the spaces that are stripped, and that no email has, one by one |
| Emails.NormalizeTwice | app/domain/value_objects.py:32 | normalisation is idempotent and leaves no space at either end and no capital |
| Emails.NormalFormExactly | app/domain/value_objects.py:32 | a string is its own normal form exactly if it has no space at either end and no capital |
| Emails.SpellingsAgree | app/domain/value_objects.py:28-32 | two spellings have the same normal form exactly if, without surrounding space, they differ in the case of letters only |
| Emails.EmailExactly | app/domain/value_objects.py:27-35 | accepted exactly if the normal form has no space, one @, a non-empty local part and a domain with a dot that is neither its first nor its last character |
| Emails.EmailTwice | app/domain/value_objects.py:27-35 | an email built from an email is that email |
| Emails.AtMostOneRow | app/infrastructure/repositories/user_repository.py:40-45 | under unique emails the lookup sees at most one row, and the right one |
| Emails.LoginFindsEverySpelling | app/application/use_cases/auth.py:71 | a user stored under one spelling is found under exactly the spellings with the same normal form |
| Emails.FoundWhateverTheCase | app/application/use_cases/auth.py:67-71 | a user stored under an email without capitals is found under exactly the spellings that differ from it in surrounding space and in the case of letters |
| Seed.Script.SeedAdminUser | app/db/seed.py:22-38 | adds the admin if missing, and fails exactly if another spelling of the email is stored |
| Seed.Script.SeedTechnologies | app/db/seed.py:41-48 | for any catalogue, repeats included, adds the first entry of each missing name and never violates uniqueness |
| Seed.Script.SeedTeam | app/db/seed.py:83-112 | if no member has the founder's name, adds one linked to the user with the admin's email, who is always found; otherwise adds none; fails exactly on two namesakes |
| Seed.Script.Run | app/db/seed.py:115-121 | fails, storing nothing, exactly in those two situations, and otherwise seeds the store |
| Seed.SeededIsComplete | app/db/seed.py:22-121 | a seeded store meets the constraints, keeps all it had, and has the admin, every catalogue name and one founder; what is new is the admin under the new id, the first catalogue entry of each missing name, the company, and the founder, linked to the user with the admin's email |
| Seed.SeedingTwice | app/db/seed.py:115-121 | a seeded store can be seeded again, which adds nothing |
| Seed.SeedingManyTimes | app/db/seed.py:115-121 | any number of runs is one run |
| Seed.SeededAdminLogsIn | app/db/seed.py:24-38 | if the configured email is one, login finds the admin under exactly its spellings; if not, reading the stored row raises and login never finds the admin |
| Seed.UnvalidatedAdmin | app/db/seed.py:24-38 | a configured value that is no email is stored all the same, and then nobody can log in |
| Seed.CapitalsBlock | app/models/user.py:29-36 | a store with the email in other letters meets the constraints and cannot be seeded |
| Seed.NamesakesBlock | app/db/seed.py:87-91 | nor can one with two team members of the founder's name |

## Left out

- FastAPI routers, Pydantic schemas, exception handlers, CORS, health checks and logging: field copying and wiring without state of their own.
- bcrypt, SHA-256, JWT and `secrets`: a token and its hash are one abstract value; in the protocol, password checks and the users table answer as inputs of its steps; a login's time is not recorded.
- `Url`, `Image`, `Password`, `MarkdownContent` and `GUID`: they rest on library parsers or on a length test.
- SQLAlchemy's identity map and eager loading: apart from the flush before a query, a commit publishes rows at once; `save` reads the snapshot of the transaction's first read, as under the default isolation; `refresh` after a commit is modelled as the re-read that it is in `create` and `revoke_if_active` only.
- InnoDB gap locks, lock timeouts and isolation anomalies: only the row locks of the locking select and the waits of other writers on them.
- Redis client details: TTL is in the clock's unit without rounding, and keys are neither evicted nor deleted by others.
- Unicode case mapping and MySQL collations: `Text.Lower` folds ASCII letters; comparisons are by character.
- Purging as logout sees it: a logout checks neither expiry nor an earlier revocation, so a purge may change its answer; only logins and refreshes are claimed.
- The fakes' create and update of projects and articles: the pattern of the SQL ones, without the slug check on update that the schema makes.
- The repositories of clients, technologies, case studies and testimonials have more methods than the table has rows: their contracts are `Store`'s answers, by `Store.DoneIsCommitted`.
- An article's author, whose row is always the caller's own.
- In `StoreRaces`, what a session does after its commit: a row that is gone when it is refreshed is an error there, and is not told from the commit's own answer.
- The in-memory article listing: the fake's list method is modelled on values, by the orders it may produce; sorting in place is not captured.
- Other columns of the store: text columns, check constraints on status and rating, and timestamps.
- Company, partner, product, service, service-line, team-member and contact use cases: the same pattern again. The company singleton is created by find-or-insert and is not claimed under concurrent first writes.
- The overflow of datetimes at the ends of Python's range.
- Email sending, Alembic migrations, role scripts, Docker and nginx.
