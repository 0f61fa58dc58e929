# Verification of the Uprise platform's stateful protocols

A Dafny model of the parts of the platform whose correctness depends on interleavings, on whole
histories, or on two pieces of code agreeing: the admin app's request cache, the template expression
evaluator, the call limiter, the page lifecycle with its outbox and relay, the resumable event stream,
the two audience resolution routes, and the string, token, predicate and permission cores around them.

`dafny verify dfyconfig.toml` checks everything. Code that changes state is a class or a method with
the source's loops, proved equal to a function; what the platform promises is then proved about that
function, over all inputs and all runs.

| files | subject |
|---|---|
| ApiCacheModel, ApiCacheInvariant, ApiCacheEviction, ApiCacheTraces, ApiCacheFields, ApiCacheRemount, ApiCacheEngine, Runs | stale-while-revalidate cache: step system, invariant, eviction, whole runs, field by field, remounting, the mutable objects |
| TemplateResolve, TemplateSyntax, TemplateShape, TemplateMeaning, TemplateLaws, TemplateScan | string evaluator against a syntax tree with a meaning; what its operators give; its loops |
| RateLimit, RateLimitClients | fixed windows, pruning, the three-window service; who shares a window |
| OutboxRelay, OutboxDrain, ActionPages, ActionPageLaws, EventDelivery | relay protocol, one relay call, page lifecycle and its commands, both together |
| SseResume | event stream with reconnects; the connection |
| OrderedDedup, HashOrder, Audience, AudienceMembership, AudienceResolver, DispatchWalk | insertion-ordered maps, draw order, the two resolution routes, who is in an audience, the dispatcher's walk |
| SharedParent, Domains, DomainLaws | host and parent-domain derivation |
| SessionToken, Decimal, JsString | capability tokens on a real base64url, numerals, string operations |
| Predicates, PredicateNodes, QueryAnswers, QueryProbes, EnvelopeScope, PredicateValidator, PredicateBreakouts | predicate allowlist; what a query's answer depends on, its tenant and its limit, for every accepted predicate and for some |
| Permissions, PermissionLaws, Fuzzy, Wrappers | role ladder and rule expansion; search match; shared definitions |

Where the code does not do what its comments say, the model follows the code and states exactly when
the promise holds:

- The entry that `entryFor` returns is the cached one if and only if `Kept`: the key is there, there is
  room, or enough unpinned entries of age 0 would go first (`EntryForIsCachedIffKept`, with
  the reachable run `LostWrite`).
- The evaluator's scanner does not know about quotes, and a chain of equalities groups to the right
  (`TextReadsBackIffNoOperator`, `QuotedOperatorIsSplit`, `ChainGroupsToTheRight`).
- Dropping expired buckets only happens while counting into an open window, so a map that sees only new
  clients always grows (`DropsIffCountingAboveCap`, `NewClientsAlwaysGrowTheMap`).
- A relay call's return value counts the rows it marked even when the commit fails afterwards
  (`OutboxDrain.Relay.DrainOutbox`).
- A job sent again is dropped if and only if the queue still has it: an event's job is taken in at most
  once, if and only if no enqueue found it consumed or trimmed and no longer queued (`ReacceptsIffGone`,
  `AcceptedOnceIff`, with the run `DeliveredTwice`).
- Unpublish also takes ARCHIVED to DRAFT, and then keeps `archivedAt` (`UnpublishRestores`,
  `DraftKeepsArchivedAt`, with the history `ArchivedDraft`).
- A stream skips a row if and only if the row becomes visible behind what was already sent
  (`SkipsIffBehind`, `LateRowIsSkipped`).
- A sibling host has its origin's parent if and only if that parent does not end in a dot or a space
  (`SiblingHasSameParent`); it ends in one whenever the host is written with two trailing dots
  (`TwoDotsChangeParent`, `AdminWithTwoDots`).
- Of the statement that the envelope parses to, only the table, the projection and the condition are
  checked (`RestIsNotChecked`). A predicate that stays inside its parentheses keeps all that the envelope
  promises (`InsideKeepsPromises`). In general, unless the database refuses the query,
  - whatever the operators mean, an accepted query's answer depends on the view only, if and only if what
    decides in its HAVING, ORDER BY, LIMIT and OFFSET has no subquery and no function that is not listed
    (`AcceptedAnswerIff`, with `OrderByIsNotChecked` and `OrderByCallsAreNotChecked`);
  - with AND, OR, the constants and the tenant equality read as in SQL and all else open, its answer is the
    bound tenant's own, if and only if its condition can never hold, or the tenant equality still confines
    the condition and what decides beside it is as above (`AcceptedTenantIff`, with
    `OrderByReadsOtherTenants` and `OrIsNotChecked`);
  - whatever its condition keeps, it answers at most n rows, if and only if its LIMIT is a constant that
    takes at most n (`CappedIffLimited`, with `CommentDropsLimit`).

## Model

| member | source | states |
|---|---|---|
| ApiCacheInvariant.StepKeepsInv | apps/admin/src/lib/use-api-cache.ts:34-160 | every callback, timer and settle keeps: in-flight run and controller set together and live, every live run registered, subscriber counts right, one key per entry |
| ApiCacheTraces.InvariantHolds | apps/admin/src/lib/use-api-cache.ts:34-160 | the invariant holds at every moment of every interleaving from the empty cache |
| ApiCacheTraces.AtMostOneLiveRun | apps/admin/src/lib/use-api-cache.ts:79-118 | at any moment a run of an entry is unsettled and unaborted if and only if it is the one in flight; run and controller come together |
| ApiCacheTraces.LateSettleChangesNothing | apps/admin/src/lib/use-api-cache.ts:93-112 | settling an aborted run changes no entry |
| ApiCacheTraces.FailureKeepsData | apps/admin/src/lib/use-api-cache.ts:99-112 | a failed or rejected fetch keeps data and age, sets an error, ends the flight and bumps the version once |
| ApiCacheRemount.RemountKeepsFetch | apps/admin/src/lib/use-api-cache.ts:126-145 | on every run, leaving a key and coming back to it before the deferred abort runs leaves the fetch in flight, and no timer of that leaving aborts it |
| ApiCacheTraces.StepEffect | apps/admin/src/lib/use-api-cache.ts:34-160 | each step stores exactly its write or stale mark in the entry, and bumps the version of all it changes; the one silent change is the deferred abort of an unwatched entry |
| ApiCacheTraces.AbortOnlyUnwatched | apps/admin/src/lib/use-api-cache.ts:138-144 | a run becomes aborted exactly by its entry's timer at a moment without subscribers |
| ApiCacheTraces.DataIsMostRecent | apps/admin/src/lib/use-api-cache.ts:65-104 | on every run an entry's data is that of its most recent write or unaborted success |
| ApiCacheTraces.NoDataBeforeFirstWrite | apps/admin/src/lib/use-api-cache.ts:65-104 | before the first of those it has none |
| ApiCacheFields.ErrorIsLatest | apps/admin/src/lib/use-api-cache.ts:65-112 | on every run an entry's error is that of its last failed result, or `Request failed` after a rejection, unless a write or a success came later; none at first, and no other step touches it |
| ApiCacheFields.StatusIsLatest | apps/admin/src/lib/use-api-cache.ts:65-112 | so is its status, which a rejection leaves as it was |
| ApiCacheFields.FetcherIsLatest | apps/admin/src/lib/use-api.ts:65-68 | on every run an entry's fetcher is the one mounted last |
| ApiCacheFields.ListenerIsLatest | apps/admin/src/lib/use-api-cache.ts:131-137 | on every run a listener is notified of an entry if and only if its last act there was to subscribe |
| ApiCacheFields.FlightIsLatest | apps/admin/src/lib/use-api-cache.ts:79-160 | on every run a fetch is in flight if and only if, since the last settling or abort, the entry was revalidated with a fetcher, or invalidated while it was listened to and had one |
| ApiCacheFields.NewRunsCall | apps/admin/src/lib/use-api-cache.ts:79-118 | only revalidation and invalidation start a fetch, and it calls the fetcher given or else the entry's own |
| ApiCacheTraces.FreshIffRecentlyWritten | apps/admin/src/lib/use-api-cache.ts:121-160 | a key is fresh if and only if its entry was last touched by a write, with no invalidation since, within the TTL |
| ApiCacheTraces.SameVersionSameContents | apps/admin/src/lib/use-api-cache.ts:17-19 | equal versions of an entry at two moments mean equal data, error, status and age |
| ApiCacheTraces.LostWrite | apps/admin/src/lib/use-api-cache.ts:45-72 | a reachable full cache in which a write to a new key cannot be read back |
| ApiCacheEviction.EvictionIsExact | apps/admin/src/lib/use-api-cache.ts:34-43 | eviction removes exactly the smaller of excess and evictable count, only evictable entries, none newer than an evictable survivor, and changes nothing else |
| ApiCacheEviction.InsertionBound | apps/admin/src/lib/use-api-cache.ts:45-53 | right after an insertion the size is at most the larger of 150 and the pinned entries, and pinned entries stay |
| ApiCacheEviction.EntryForIsCachedIffKept | apps/admin/src/lib/use-api-cache.ts:34-53 | the returned entry is the cached one if and only if the key is there, there is room, or enough older unpinned entries go first |
| ApiCacheEviction.WriteIsVisibleIffKept | apps/admin/src/lib/use-api-cache.ts:65-72 | a write-through can be read back under exactly that condition |
| ApiCacheEviction.FetchIsSharedIffKept | apps/admin/src/lib/use-api-cache.ts:79-83 | a second fetch joins the first under exactly that condition |
| ApiCacheEngine.Engine.EvictIfNeeded | apps/admin/src/lib/use-api-cache.ts:34-43 | filter, stable sort and deletion loop on the mutable map do what the step system's eviction does |
| ApiCacheEngine.Engine.EntryFor | apps/admin/src/lib/use-api-cache.ts:45-53 | the object returned is the step system's entry, new objects only for new keys |
| ApiCacheEngine.Engine.WriteEntry | apps/admin/src/lib/use-api-cache.ts:65-72 | the assignments refine the write step |
| ApiCacheEngine.Engine.Revalidate | apps/admin/src/lib/use-api-cache.ts:79-118 | joining or starting a run refines the step; the objects of other entries and runs are as before |
| ApiCacheEngine.Engine.Settle | apps/admin/src/lib/use-api-cache.ts:92-112 | what a run does after its await, including the identity test in its finally, refines the settle step |
| ApiCacheEngine.Engine.SubscribeKey | apps/admin/src/lib/use-api-cache.ts:131-134 | refines the subscribe step |
| ApiCacheEngine.Engine.Unsubscribe | apps/admin/src/lib/use-api-cache.ts:135-138 | refines the unsubscribe step on the entry the closure captured, even after its eviction |
| ApiCacheEngine.Engine.FireTimer | apps/admin/src/lib/use-api-cache.ts:138-144 | refines the deferred abort |
| ApiCacheEngine.Engine.SetFetcher | apps/admin/src/lib/use-api.ts:65-68 | the mounted hook's assignment of the latest fetcher refines its step |
| ApiCacheEngine.Engine.InvalidateApi | apps/admin/src/lib/use-api-cache.ts:153-160 | the loop over the live map, with refetches inside, refines prefix invalidation |
| ApiCacheEngine.Engine.IsFresh | apps/admin/src/lib/use-api-cache.ts:121-124 | reads freshness as the step system defines it |
| TemplateMeaning.PrintedMeaning | docs/design_handoff_uprise_labs/support.js:203-292 | for every expression over literals, paths with nested keys, negation, the four equalities and parentheses, resolving its text with any spacing gives its value in every environment |
| TemplateLaws.StrictEqualityIsSameness | docs/design_handoff_uprise_labs/support.js:209-218 | for all operands `===` is true if and only if their values are the same and not NaN |
| TemplateLaws.StrictInequalityIsDifference | docs/design_handoff_uprise_labs/support.js:209-218 | `!==` is its opposite |
| TemplateLaws.LooseEqualityAsks | docs/design_handoff_uprise_labs/support.js:209-222 | `==` gives loose equality of the two values in their order |
| TemplateLaws.LooseInequalityAsks | docs/design_handoff_uprise_labs/support.js:209-222 | `!=` is its opposite |
| TemplateLaws.NegationTellsFalsy | docs/design_handoff_uprise_labs/support.js:224-224 | `!` gives true for undefined, null, false, 0, NaN and the empty text, and false for all else |
| TemplateLaws.WordReads | docs/design_handoff_uprise_labs/support.js:261-264 | a word that is no keyword is a property of the root object |
| TemplateLaws.DotIsProperty | docs/design_handoff_uprise_labs/support.js:266-271 | a dot and a name behind a path ask its value for that property; undefined and null have none |
| TemplateLaws.BracketIsProperty | docs/design_handoff_uprise_labs/support.js:272-287 | so do brackets, for the value of what stands in them |
| TemplateLaws.NumeralReads | docs/design_handoff_uprise_labs/support.js:229-229 | a numeral, told by its characters, is what Number() makes of it |
| TemplateLaws.KeywordReads | docs/design_handoff_uprise_labs/support.js:225-228 | the four keywords read as their values |
| TemplateLaws.StrangeIsUndefined | docs/design_handoff_uprise_labs/support.js:261-264 | a text that starts like no word, numeral, operator or quoted text is undefined |
| TemplateLaws.BrokenPathIsUndefined | docs/design_handoff_uprise_labs/support.js:265-291 | a path that goes on with anything but a dot, a bracket or the end is undefined, whatever stands in front |
| TemplateShape.PrintShape | docs/design_handoff_uprise_labs/support.js:235-260 | printed expressions keep brackets balanced and show no operator outside them but their own |
| TemplateMeaning.ChainGroupsToTheRight | docs/design_handoff_uprise_labs/support.js:209-223 | an unparenthesised chain of equalities is read from the right |
| TemplateMeaning.TextReadsBackIffNoOperator | docs/design_handoff_uprise_labs/support.js:230-232 | a quoted text reads back if and only if the scanner finds no operator in it |
| TemplateMeaning.QuotedOperatorIsSplit | docs/design_handoff_uprise_labs/support.js:246-260 | whatever the quote, the operator and the text around it: a quoted text with an operator outside brackets does not read back |
| TemplateScan.ParensWrapWhole | docs/design_handoff_uprise_labs/support.js:235-245 | the depth-counting loop decides whether some parenthesis before the end closes the first one |
| TemplateScan.FindTopLevelEquality | docs/design_handoff_uprise_labs/support.js:246-260 | the loop finds the first top-level operator, if there is one, and its longest reading |
| TemplateScan.MatchSquare | docs/design_handoff_uprise_labs/support.js:273-283 | the inner loop finds the matching square bracket if and only if there is one |
| TemplateScan.Resolve | docs/design_handoff_uprise_labs/support.js:203-234 | the evaluator with its loops computes the function the meaning theorem is about, and terminates |
| TemplateScan.ResolvePath | docs/design_handoff_uprise_labs/support.js:261-292 | the path loop equals following the parsed steps one by one |
| RateLimit.AtMostTwiceTheLimit | apps/api/src/actions/actions-rate-limit.service.ts:40-52 | over every history with a monotone clock, at most twice the limit pass for a key in any interval of the window's length |
| RateLimit.WindowIsExact | apps/api/src/actions/actions-rate-limit.service.ts:40-52 | within a bucket's own window exactly the counted requests up to the limit pass |
| RateLimit.TwiceTheLimitIsReached | apps/api/src/actions/actions-rate-limit.service.ts:40-52 | the bound is attained for every limit and window |
| RateLimit.PruningIsInvisible | apps/api/src/actions/actions-rate-limit.service.ts:47-50 | the pruned limiter decides every history like one that never prunes, and never drops the bucket just counted |
| RateLimit.DropsIffCountingAboveCap | apps/api/src/actions/actions-rate-limit.service.ts:42-50 | when exactly a call gives memory back |
| RateLimit.NewClientsAlwaysGrowTheMap | apps/api/src/actions/actions-rate-limit.service.ts:42-45 | a new client's call always adds a bucket, whatever has expired |
| ActionsRateLimit.IntEnv | apps/api/src/actions/actions-rate-limit.service.ts:34-38 | a setting in range is truncated, one beyond an end becomes that end, and without a finite number the fallback stands |
| ActionsRateLimit.AdmittedIffAllPass | apps/api/src/actions/actions-rate-limit.service.ts:63-86 | over a history a call is admitted if and only if it passes all three windows run on the whole history and finds both caps unreached |
| ActionsRateLimit.AdmittedCallsAreBounded | apps/api/src/actions/actions-rate-limit.service.ts:63-75 | admitted calls of a client in a minute and in an hour, and of a page in a minute, are at most twice the limits |
| RateLimitClients.AdmittedByOwnCalls | apps/api/src/actions/actions-rate-limit.service.ts:63-86 | over every history a call is admitted if and only if it passes a minute and an hour counting its client's calls alone and a minute counting its page's alone, and finds both caps unreached |
| RateLimitClients.SearchedByOwnSearches | apps/api/src/actions/actions-rate-limit.service.ts:56-61 | a search passes if and only if it passes a minute counting its client's searches alone |
| RateLimitClients.KeysTellClients | apps/api/src/actions/actions-rate-limit.service.ts:58-68 | two calls share a key if and only if their addresses are the same, or each is absent, empty or the text `unknown` |
| RateLimitClients.StrangersPass | apps/api/src/actions/actions-rate-limit.service.ts:40-52 | the first call of a client is never refused by the address windows, whatever others did |
| RateLimitClients.SettingsAreLimits | apps/api/src/actions/actions-rate-limit.service.ts:56-79 | each setting in range is the limit it names, and without settings the defaults hold |
| ActionsRateLimit.Counters.Bump | apps/api/src/actions/actions-rate-limit.service.ts:40-52 | the mutable counter refines the function, deletion loop included |
| ActionsRateLimit.Counters.DropExpired | apps/api/src/actions/actions-rate-limit.service.ts:48-49 | deleting while iterating, in any order, leaves exactly the unexpired buckets |
| ActionsRateLimit.Service.AssertSearchWithinLimits | apps/api/src/actions/actions-rate-limit.service.ts:56-61 | counts in the search window only |
| ActionsRateLimit.Service.AssertWithinLimits | apps/api/src/actions/actions-rate-limit.service.ts:63-86 | the service on its three maps refines the admission function, all windows counted before any trips |
| OutboxRelay.StepKeepsInv | apps/worker/src/main.ts:83-134 | every step of appenders, any number of relays, crashes and consumers keeps the protocol's invariant |
| OutboxRelay.LiveClaimsAreDisjoint | apps/worker/src/main.ts:93-99 | two transactions that are open or committed never hold a row in common |
| OutboxRelay.ClaimsOldestFirst | apps/worker/src/main.ts:93-99 | on every run a claim leaves out no older unpublished row but those that a relay at work holds, and takes no more than asked for |
| OutboxRelay.NoEventLost | apps/worker/src/main.ts:77-134 | at every moment an event is unpublished, or its job waits, was consumed, or failed out of the queue |
| OutboxRelay.QueueHoldsOneJobEach | apps/worker/src/main.ts:105-119 | the queue never holds two jobs of one event, and only jobs of stored events |
| OutboxRelay.DeliveriesAreBounded | apps/worker/src/main.ts:77-134 | an event is delivered at most once more than relay transactions that sent it were rolled back |
| OutboxRelay.ReacceptsIffGone | apps/worker/src/main.ts:105-119 | a job sent again is taken in again if and only if its earlier one was consumed or trimmed and is no longer queued; else nothing changes in the queue |
| OutboxRelay.AcceptedOnceIff | apps/worker/src/main.ts:77-134 | over every run an event's job is taken in at most once if and only if no enqueue found it gone |
| OutboxRelay.DeliveredTwice | apps/worker/src/main.ts:119-127 | a run in which a completed job's id is enqueued again and consumed twice |
| OutboxDrain.ClaimExists | apps/worker/src/main.ts:94-99 | the claiming query has an answer in every state: the oldest free rows up to the limit |
| OutboxDrain.Relay.AddBulk | apps/worker/src/main.ts:106-121 | the bulk enqueue, as far as it gets, is a run of enqueue steps after which every event reached has a job |
| OutboxDrain.Relay.DrainOutbox | apps/worker/src/main.ts:83-134 | one call is a run of the protocol, wherever it fails: it returns 0 when enqueueing or marking fails and the number of claimed rows otherwise, commit or not, and publishes exactly those if it commits |
| ActionPages.EventsMatchEntries | apps/api/src/actions/actions.service.ts:181-242 | over every command history the outbox holds one published event per entry into PUBLISHED, one archived event per entry into ARCHIVED, one created event per page |
| ActionPages.OneEventPerEntry | apps/api/src/actions/actions.service.ts:196-207 | a command adds an event of a kind if and only if the page enters that kind's status |
| ActionPages.StampsTellHistory | apps/api/src/actions/actions.service.ts:212-242 | PUBLISHED implies `publishedAt`, ARCHIVED implies `archivedAt`, and both stamps are those of the last commands that set or cleared them |
| ActionPages.DraftKeepsArchivedAt | apps/api/src/actions/actions.service.ts:225-242 | a draft carries `archivedAt` if and only if the last of its archives and restores was an archive |
| ActionPages.ArchivedDraft | apps/api/src/actions/actions.service.ts:225-242 | the history create, archive, unpublish leaves a draft that carries `archivedAt` |
| ActionPages.UnpublishRestores | apps/api/src/actions/action-page-state.machine.ts:10-14 | unpublishing an archived page does what restore does, except for the stamp |
| ActionPages.OnlyItsOwnPage | apps/api/src/actions/actions.service.ts:189-195 | a rejected command changes nothing and no command touches another page |
| ActionPageLaws.CommandIs | apps/api/src/actions/actions.service.ts:181-242 | the answer to every command and what it makes of the page: the page must be the tenant's, pass the gate to be published, and may change to every other status but from archived to published |
| ActionPageLaws.PublishedPassedGate | apps/api/src/actions/actions.service.ts:212-223 | over every history a published page was published by its tenant at the time of its stamp, with the gate passed |
| ActionPages.ActionsService.RunTransition | apps/api/src/actions/actions.service.ts:181-210 | the locked transaction refines the transition, with its error cases |
| ActionPages.ActionsService.CreatePage | apps/api/src/actions/actions.service.ts:72-90 | a new draft and its created event in one transaction |
| ActionPages.ActionsService.PublishPage | apps/api/src/actions/actions.service.ts:212-223 | refines the publish command, gate and stamp included |
| ActionPages.ActionsService.ArchivePage | apps/api/src/actions/actions.service.ts:229-238 | refines the archive command |
| ActionPages.ActionsService.UnpublishPage | apps/api/src/actions/actions.service.ts:225-227 | refines the unpublish command |
| ActionPages.ActionsService.RestorePage | apps/api/src/actions/actions.service.ts:240-242 | refines the restore command |
| EventDelivery.EveryEventIsPendingOrHandled | apps/worker/src/main.ts:77-134 | commands and relays interleaved: the event of every committed command is unpublished in the table or was handled by the queue |
| SseResume.ResumesAtLastSeen | apps/api/src/actions/public-actions.controller.ts:108-117 | a reconnect starts exactly behind the last id received, however stale `?after` is |
| SseResume.StepKeepsInv | apps/api/src/actions/public-actions.controller.ts:108-143 | appends, connects, polls, deliveries and disconnects keep: rows received or under way are the session's, in order, and the cursor is at the last of them |
| SseResume.ReceivedInOrder | apps/api/src/actions/public-actions.controller.ts:130-142 | on every run the client receives only rows of its session, none twice, with strictly increasing ids |
| SseResume.ReceivedIsLedgerPrefix | apps/api/src/actions/public-actions.controller.ts:108-142 | when rows become visible in id order, the client has received a row if and only if it is the session's and lies between the start and the last id seen |
| SseResume.SkipsIffBehind | apps/api/src/actions/public-actions.controller.ts:131-137 | a step makes the stream skip a row if and only if it makes a row visible behind what was sent |
| SseResume.PassedIsLost | apps/api/src/actions/public-actions.controller.ts:131-137 | a row the client has passed is never received later, on any continuation |
| SseResume.LateRowIsSkipped | apps/api/src/actions/public-actions.controller.ts:131-137 | a run after which the row is lost for good |
| SseResume.ShortPollCatchesUp | apps/api/src/actions/public-actions.controller.ts:131-138 | a poll that returns fewer than its limit has sent on everything visible |
| Decimal.ParseShow | apps/api/src/actions/public-actions.controller.ts:112-138 | a printed id parses back to itself |
| Decimal.ParseReads | apps/api/src/actions/public-actions.controller.ts:112-114 | nothing but runs of digits is read, digit by digit |
| SseConnection.LargestCursor | apps/api/src/actions/public-actions.controller.ts:109-117 | the loop over header and query yields the largest valid id, 0 if none |
| SseConnection.AnswerMovesToLast | apps/api/src/actions/public-actions.controller.ts:136-137 | on an answer of the query the cursor ends at the last row |
| SseConnection.Connection.constructor | apps/api/src/actions/public-actions.controller.ts:108-129 | a connection starts at the larger of the two ids and has sent no row |
| SseConnection.Connection.Poll | apps/api/src/actions/public-actions.controller.ts:136-140 | one turn of the loop writes one event for each row of the answer, in order, or a heartbeat if there is none, and moves the cursor over them |
| SseConnection.FramesCarryRows | apps/api/src/actions/public-actions.controller.ts:136-140 | what a turn writes carries the answer's rows behind those before, and a heartbeat none |
| Audience.MembersAreRecipients | apps/api/src/audiences/audience-recipients.resolver.ts:63-177 | for static and opted-in audiences the ordered members are the eager recipients' identities, one for one |
| Audience.WindowsAreRecipients | apps/api/src/audiences/audience-recipients.resolver.ts:128-161 | for segment audiences, windows of any sizes hydrated into one insertion-ordered map give the eager recipients' identities |
| AudienceMembership.ListRecipients | apps/api/src/audiences/audience-recipients.resolver.ts:109-125 | a stored list's recipients, told on the rows: each phone of a row with a valid phone that is not switched off, once, in the order of the first such rows, with what the last says |
| AudienceMembership.OptInRecipients | apps/api/src/audiences/audience-recipients.resolver.ts:69-85 | an opted-in audience's: likewise the tenant's opted-in consents to WhatsApp |
| AudienceMembership.SegmentRecipients | apps/api/src/audiences/audience-recipients.resolver.ts:87-108 | a segment audience's: likewise the ordered members whose contact is the tenant's and has a phone |
| AudienceMembership.ListedPhones | apps/api/src/audiences/audience-recipients.resolver.ts:230-240 | a phone is a recipient's of a stored list if and only if some row of the list has it, it is a plus and 7 to 15 digits, and the row's metadata is no object whose `contactable` is false |
| AudienceMembership.OptedInPhones | apps/api/src/audiences/audience-recipients.resolver.ts:69-85 | of an opted-in audience if and only if some opted-in WhatsApp consent of the tenant has it |
| AudienceMembership.SegmentPhones | apps/api/src/audiences/audience-recipients.resolver.ts:87-108 | of a segment audience if and only if some member's contact is the tenant's and has it, not empty |
| AudienceMembership.MembersAreWho | apps/api/src/audiences/audience-recipients.resolver.ts:128-177 | the windowed members are the recipients' contacts and phones, one for one |
| AudienceMembership.SourceIs | apps/api/src/audiences/audience-recipients.resolver.ts:63-111 | which of the three kinds an audience is, by its first listing of the tenant and its dynamic segments |
| AudienceMembership.OrderedAreMembers | apps/api/src/audiences/audience-recipients.resolver.ts:216-219 | the ordered ids are the contacts with a membership in a segment of the audience, each once |
| AudienceMembership.UnseededInOrder | apps/api/src/audiences/audience-recipients.resolver.ts:216-219 | without a seed they come in the order of their first memberships |
| AudienceMembership.SeededInOrder | apps/api/src/audiences/audience-recipients.resolver.ts:220-225 | with a seed by the hash of seed, space and id, and by id among equal hashes |
| AudienceMembership.EvaluatesIfDue | apps/api/src/audiences/audience-recipients.resolver.ts:198-214 | the database changes if and only if the audience has exactly one segment, seeded, and not evaluated within the stale minutes; then its memberships are those found, and it is stamped if of the second version |
| Audience.RecipientsAreEntries | packages/db/prisma/migrations/00000000000000_init_multischema/migration.sql:1277-1277 | with the store's unique keys, for every audience: deduplication by phone drops nobody and replaces nobody, so the recipients are the entries in their order |
| Audience.WindowsCover | apps/api/src/autodialer/dialer-dispatch.service.ts:182-327 | the slices taken at multiples of the window size put together are the whole order |
| DispatchWalk.SelectCandidates | apps/api/src/autodialer/dialer-dispatch.service.ts:178-260 | the nested loops with their early stops, over ids or over members, return the first batch of the phones that pass the filters, each with its first member, whatever the window size |
| DispatchWalk.CandidatesAreFirstRecipients | apps/api/src/autodialer/dialer-dispatch.service.ts:164-260 | with the store's unique keys, for every audience: the candidates are the first batch of the eager recipients whose phones pass the filters, contacts included, in order |
| DispatchWalk.OrderHydratesToRecipients | apps/api/src/autodialer/dialer-dispatch.service.ts:164-177 | with the store's unique keys, the walked order hydrates to the eager recipients' identities, one for one |
| Audience.PhonesOnceInOrder | apps/api/src/audiences/audience-recipients.resolver.ts:63-127 | phones are distinct and complete, ordered by first entry, each with its last entry's contact and metadata |
| Audience.OrderedIdsAreTheMembers | apps/api/src/audiences/audience-recipients.resolver.ts:198-227 | the ids are the segments' member contacts, each once |
| Audience.SeededOrderIsFixed | apps/api/src/audiences/audience-recipients.resolver.ts:190-227 | with a seed the order depends on the set of members only, not on how rows are stored |
| Audience.LaterRunAgrees | apps/api/src/audiences/audience-recipients.resolver.ts:198-214 | after a stale segment was evaluated, a run within the stale minutes evaluates nothing and returns the same by either route |
| HashOrder.OrderIsSorted | packages/segmentation/src/evaluation/hash-order.ts:28-39 | distinct ids come out in strictly ascending hash order, ties by id, none lost or added |
| HashOrder.OrderIsCanonical | packages/segmentation/src/evaluation/hash-order.ts:8-39 | preview and send agree: the order depends on the set of ids alone |
| HashOrder.JoiningNeverReshuffles | packages/segmentation/src/evaluation/hash-order.ts:14-15 | new members never reshuffle those that were there |
| AudienceResolver.Resolver.OrderedSegmentContactIds | apps/api/src/audiences/audience-recipients.resolver.ts:198-227 | evaluates inline only a stale seeded segment, and returns the order on the database it leaves |
| AudienceResolver.Resolver.ResolvePhoneRecipients | apps/api/src/audiences/audience-recipients.resolver.ts:63-127 | the loops that fill the map compute the eager recipients |
| AudienceResolver.Resolver.ResolveOrderedMembers | apps/api/src/audiences/audience-recipients.resolver.ts:136-177 | the loops compute the member order, on the same database |
| AudienceResolver.RecipientsOfContacts | apps/api/src/audiences/audience-recipients.resolver.ts:98-109 | the loop over the ids skips contacts the query did not return and empty phones |
| AudienceResolver.RecipientsOfRows | apps/api/src/audiences/audience-recipients.resolver.ts:112-124 | the loop over stored rows skips exactly those that are not contactable |
| OrderedDedup.LastEntryWins | apps/api/src/audiences/audience-recipients.resolver.ts:68-83 | setting keys in turn leaves each key with its last entry's value |
| OrderedDedup.FirstEntryPlaces | apps/api/src/audiences/audience-recipients.resolver.ts:96-109 | and in the place of its first entry |
| OrderedDedup.FirstIsLastIff | apps/api/src/autodialer/dialer-dispatch.service.ts:226-229 | keeping the first entry of each key gives the same map if and only if first and last entries agree |
| SharedParent.ParentIsLongestShared | apps/api/src/bootstrap.ts:33-58 | there is a parent if and only if at least two distinct non-local hosts share two labels, and it is the longest label suffix common to all |
| SharedParent.ParentDependsOnHostsOnly | apps/api/src/bootstrap.ts:33-58 | neither order nor multiplicity of the origins matters |
| SharedParent.MoreHostsShareLess | apps/api/src/bootstrap.ts:47-57 | adding origins can only shorten the parent |
| SharedParent.CommonSuffixIsLongest | apps/api/src/bootstrap.ts:50-53 | the suffixes of the common suffix are exactly the common suffixes |
| SharedParent.CommonOf | apps/api/src/bootstrap.ts:50-53 | the inner loop with two indices computes the common suffix |
| SharedParent.FindSharedParent | apps/api/src/bootstrap.ts:47-57 | the outer loop, with its early break, computes the suffix of all hosts |
| SharedParent.AssertCookieDomainForSso | apps/api/src/bootstrap.ts:68-83 | throws in production and warns elsewhere, if and only if no cookie domain is set and there is a shared parent |
| SharedParent.ParentNeedsTwoSiblings | apps/api/src/bootstrap.ts:26-32 | a parent needs two different hosts under two common labels |
| Domains.SiblingHasSameParent | packages/domains/src/index.ts:212-349 | a sibling host has the parent of the host it came from if and only if that parent ends in neither a dot nor a space |
| Domains.TwoDotsChangeParent | packages/domains/src/index.ts:173-228 | for every registrable parent written with two trailing dots the sibling host exists and has another parent |
| Domains.AdminWithTwoDots | packages/domains/src/index.ts:173-228 | so at `admin.a.bc..` |
| Domains.SiblingsAreClosed | packages/domains/src/index.ts:283-349 | then it has the same cookie domain and the same siblings |
| Domains.OriginsAreClosed | packages/domains/src/index.ts:339-349 | and the same sibling origins |
| Domains.OwnedIsNeverCustom | packages/domains/src/index.ts:230-258 | a host whose stripped form is at or under an owned domain is custom for no list of roots |
| Domains.OwnedFormsAreNeverCustom | packages/domains/src/index.ts:173-258 | so at any depth, with a port, one trailing dot, or both |
| Domains.KindsExclude | packages/domains/src/index.ts:250-324 | platform app host, tenant slug host and custom parent host exclude one another for every list of roots |
| Domains.KindOfParented | packages/domains/src/index.ts:212-324 | the kind of a host with a parent is fixed by whether its first label is reserved and its parent a root |
| Domains.CookieIsScopedToRegistrable | packages/domains/src/index.ts:283-292 | a cookie domain is the dotted parent of its own host, and never a public suffix |
| DomainLaws.CookieIs | packages/domains/src/index.ts:283-292 | the cookie's domain for every host: the dotted rest behind the first label, if that is a parent and no public suffix, and else none |
| DomainLaws.ParentIs | packages/domains/src/index.ts:212-228 | the parent for every host: the rest behind the first label, if that label is reserved and the rest registrable, or the rest is a root |
| DomainLaws.NoDotNoParent | packages/domains/src/index.ts:212-349 | a host without a dot has no parent, cookie domain, tenant or sibling, and is neither custom nor the platform's |
| DomainLaws.CustomIff | packages/domains/src/index.ts:230-258 | a host is custom if and only if a reserved label stands in front of a registrable domain that is neither a root nor at or under an owned one |
| DomainLaws.PlatformIff | packages/domains/src/index.ts:316-324 | a platform app host if and only if a reserved label stands in front of a root |
| DomainLaws.SlugIff | packages/domains/src/index.ts:294-314 | a tenant's host if and only if a name of letters, digits and inner hyphens that is not reserved stands in front of a root |
| DomainLaws.OriginIs | packages/domains/src/index.ts:326-349 | the sibling's origin, with the protocol's colon dropped and https as the default |
| DomainLaws.NotDerivableNoSibling | packages/domains/src/index.ts:199-201 | local hosts and hosts with another port have no sibling origin |
| DomainLaws.WritingMakesNoDifference | packages/domains/src/index.ts:163-180 | space around a host, capitals, one trailing dot and a port do not matter |
| DomainLaws.LocalIs | packages/domains/src/index.ts:182-186 | local is localhost or four groups of one to three digits |
| DomainLaws.PortIs | packages/domains/src/index.ts:188-192 | a port counts if and only if it is a numeral other than 80 and 443 behind the last colon |
| Domains.ParentIsRest | packages/domains/src/index.ts:212-228 | a parent is what stands behind the host's first label |
| Base64Url.DecodeEncode | apps/api/src/actions/session-token.util.ts:49-61 | decoding what was encoded gives the bytes back (section 5 of RFC 4648) |
| Base64Url.KnownEncodings | apps/api/src/actions/session-token.util.ts:25-30 | the test vectors of section 10 of RFC 4648 |
| Base64Url.EncodedIsOnePart | apps/api/src/actions/session-token.util.ts:46-48 | what is encoded holds no dot and is empty for no bytes only |
| SessionToken.MintedVerifiesIff | apps/api/src/actions/session-token.util.ts:38-79 | a minted token verifies for its purpose with exactly its tenant and subject if and only if both are non-empty and dot-free and it has not expired; else the reason is invalid payload or expired |
| SessionToken.AcceptedIff | apps/api/src/actions/session-token.util.ts:52-78 | for every text: accepted if and only if there is a token and a secret, and its six parts are the purpose, an expiry not passed, nonce, tenant, subject and the signature of all these |
| SessionToken.ForgedIsRejected | apps/api/src/actions/session-token.util.ts:74-77 | an accepted token whose signature alone is changed is rejected for it |
| SessionToken.MissingIsSaid | apps/api/src/actions/session-token.util.ts:57-58 | no token and no secret are reasons of their own |
| SessionToken.OtherPurposeIsRejected | apps/api/src/actions/session-token.util.ts:10-14 | for the other purpose it is rejected as such |
| SessionToken.AcceptedWasMinted | apps/api/src/actions/session-token.util.ts:52-79 | with a hash that tells messages apart, an accepted token that reuses a minted signature carries the purpose, tenant, subject, nonce and expiry of that minted one |
| Predicates.NoReasonsIffAllAllowed | apps/api/src/audiences/custom-query-predicate.validator.ts:132-192 | there are no reasons if and only if every node on every path the walker can take is allowed |
| PredicateNodes.ReportedIff | apps/api/src/audiences/custom-query-predicate.validator.ts:132-192 | a reason is given if and only if some node that stands in the condition, told constructor by constructor, is to be reported for it |
| PredicateNodes.WalkByNode | apps/api/src/audiences/custom-query-predicate.validator.ts:132-192 | operands are walked from left to right, a call itself before its arguments |
| PredicateNodes.MeaningByNode | apps/api/src/audiences/custom-query-predicate.validator.ts:132-192 | in the model's meaning every operator gets the values of all that stands in it, in order |
| Predicates.NonInterferingIffRowSafe | apps/api/src/audiences/custom-query-predicate.validator.ts:132-192 | under every meaning of the operators a condition is equal on rows that agree on allowed columns, if and only if all its nodes, clauses included, read only those |
| Predicates.AcceptedIsNonInterferingIff | apps/api/src/audiences/custom-query-predicate.validator.ts:132-192 | an accepted condition, taken alone and as it parses, depends on allowed columns only if and only if the clauses of its calls do |
| Predicates.AcceptedPlainIsNonInterfering | apps/api/src/audiences/custom-query-predicate.validator.ts:132-192 | for a condition without such clauses, taken alone, acceptance is enough |
| Predicates.ClauseIsNotWalked | apps/api/src/audiences/custom-query-predicate.validator.ts:180-185 | every accepted call stays accepted with any clause added, and as it parses then depends on what the clause reads |
| PredicateValidator.PassesIffClean | apps/api/src/audiences/custom-query-predicate.validator.ts:69-112 | a predicate passes if and only if its envelope parses to one select of contact_id from the view with an allowed condition, whatever else the select carries; the query is returned exactly then, and reasons otherwise, each once |
| PredicateValidator.VerdictNamesReported | apps/api/src/audiences/custom-query-predicate.validator.ts:94-112 | of one select the verdict names exactly the nodes to be reported, and passes if and only if there are none and the envelope is unchanged |
| PredicateValidator.VerdictNamesEnvelope | apps/api/src/audiences/custom-query-predicate.validator.ts:114-130 | which problems of the envelope it names, each if and only if |
| PredicateValidator.VerdictBefore | apps/api/src/audiences/custom-query-predicate.validator.ts:60-99 | what is empty, does not parse or is no single select has that as its one reason; what passes is run inside the envelope's text |
| QueryAnswers.SafeDependsOnViewOnly | apps/api/src/audiences/custom-query.service.ts:34-41 | an answer in which neither the condition nor what decides beside it has a subquery or an unlisted function is fixed by the view's rows |
| QueryProbes.DependsOnViewOnlyIff | apps/api/src/audiences/custom-query.service.ts:34-41 | under every meaning of operators, conditions, orders and bounds that is so if and only if the database refuses the query, or neither has one |
| PredicateValidator.RestIsNotChecked | apps/api/src/audiences/custom-query-predicate.validator.ts:94-112 | two envelopes that parse to the same table, projection and condition get the same verdict, whatever stands beside the condition |
| PredicateValidator.AcceptedNodesAreAllowed | apps/api/src/audiences/custom-query-predicate.validator.ts:38-48 | the condition of an accepted query that the database answers consists of listed functions, columns and keywords all through, and reads nothing beyond its row |
| PredicateValidator.AcceptedAnswerIff | apps/api/src/audiences/custom-query-predicate.validator.ts:69-112 | of an accepted query: the answer depends on the view only if and only if the query is refused, or what decides beside the condition reads nothing beyond its row |
| PredicateBreakouts.InsideKeepsPromises | apps/api/src/audiences/custom-query-predicate.validator.ts:6-14 | an accepted predicate whose envelope parses as it was written, limit n, has an answer that depends on the view only, is the bound tenant's own, and has at most n rows |
| PredicateBreakouts.OrderIsNotChecked | apps/api/src/audiences/custom-query-predicate.validator.ts:69-112 | a predicate that brings any order with a subquery or an unlisted function is accepted and answered, and its answer depends on more than the view and on more than the tenant's rows |
| PredicateBreakouts.OrderByIsNotChecked | apps/api/src/audiences/custom-query-predicate.validator.ts:103-130 | so for an order by a subquery on the catalog, which the restricted role may read |
| PredicateBreakouts.OrderByReadsOtherTenants | apps/api/src/audiences/custom-query.service.ts:34-41 | an order by a subquery on the view itself: all rows are the tenant's, and other tenants' rows decide their order |
| PredicateBreakouts.OrderByCallsAreNotChecked | apps/api/src/audiences/custom-query-predicate.validator.ts:38-48 | `true) order by (random()` is accepted and answered, and calls a function that is not listed |
| EnvelopeScope.KeepsTenantIffScoped | apps/api/src/audiences/custom-query-predicate.validator.ts:8-11 | with AND, OR, the constants and the tenant equality read as in SQL and all else open, a condition keeps rows of the bound tenant only if and only if the tenant equality, false or null is a conjunct at its root, or is so on both sides of an OR there |
| EnvelopeScope.TenantIsolatedIff | apps/api/src/audiences/custom-query.service.ts:34-37 | in those meanings other tenants' rows and the rest of the database make no difference to the whole answer, if and only if the query is refused, or its condition can never hold, or the condition is so scoped and nothing that decides beside it reads beyond its row |
| PredicateValidator.AcceptedTenantIff | apps/api/src/audiences/custom-query.service.ts:34-37 | so for every accepted query |
| PredicateBreakouts.OrIsNotChecked | apps/api/src/audiences/custom-query-predicate.validator.ts:8-11 | `true) or (true` is accepted and keeps other tenants' rows |
| EnvelopeScope.CappedIffLimited | apps/api/src/audiences/custom-query-predicate.validator.ts:60-63 | whatever its condition and HAVING keep, a query never answers more than n rows if and only if it is refused or its LIMIT is a constant that takes at most n; a whole number k takes k |
| PredicateBreakouts.CommentDropsLimit | apps/api/src/audiences/custom-query-predicate.validator.ts:11-14 | `true) --` is accepted and has no cap |
| PredicateValidator.WalkExpr | apps/api/src/audiences/custom-query-predicate.validator.ts:133-192 | the recursive walk pushes the reasons of all visited nodes, in source order, behind those already there |
| PredicateValidator.ValidateEnvelope | apps/api/src/audiences/custom-query-predicate.validator.ts:114-130 | pushes exactly the problems of the envelope |
| PredicateValidator.Validate | apps/api/src/audiences/custom-query-predicate.validator.ts:69-112 | the method with its early returns gives the verdict the theorem is about |
| PredicateValidator.DedupeKeeps | apps/api/src/audiences/custom-query-predicate.validator.ts:194-194 | deduplication keeps every reason once |
| PredicateValidator.DedupeInOrder | apps/api/src/audiences/custom-query-predicate.validator.ts:194-194 | and in the order in which they first came |
| Permissions.RolesAreLadder | packages/permissions/src/roles.ts:26-121 | for every action and resource and under any overrides, the rights of volunteer and of member are within organiser's, and organiser's within owner's |
| Permissions.MoreRolesMoreRights | packages/permissions/src/ability.ts:54-89 | more roles never take a right away, whatever the overrides |
| Permissions.RightsOfRoles | packages/permissions/src/ability.ts:67-89 | roles give exactly what some rule of some known role among them speaks of |
| Permissions.ExpandMatches | packages/permissions/src/ability.ts:23-46 | the expansion of a rule matches exactly what the rule reaches |
| Permissions.WildcardReach | packages/permissions/src/ability.ts:23-46 | a wildcard grant reaches itself and the entities listed under it, and nothing else |
| Permissions.LastOverrideDecides | packages/permissions/src/ability.ts:71-74 | the last override decides on all it speaks of and changes nothing else |
| Permissions.TrailingDenyRemovesDomain | packages/permissions/src/ability.ts:71-74 | a trailing inverted manage on a wildcard removes it and its listed entities, and nothing else |
| Permissions.SuperAdminCanAll | packages/permissions/src/ability.ts:57-65 | nothing is refused to a super-admin, whatever is denied |
| PermissionLaws.CanIff | packages/permissions/src/ability.ts:54-77 | for every actor, action and resource: allowed if and only if the actor is a super-admin by flag or override, or the last override about it allows it, or none is about it and some role's table is |
| AbilityBuilding.DomainResources | packages/permissions/src/ability.ts:9-21 | the builder's loop maps every domain to its listed entities, and holds no empty list |
| AbilityBuilding.ResolveRolePermissions | packages/permissions/src/ability.ts:80-89 | the loop concatenates the tables of known roles and skips the others |
| AbilityBuilding.DefineAbilityFor | packages/permissions/src/ability.ts:54-77 | the builder records the rules that the decision theorems are about, in their order |
| Fuzzy.FuzzyIncludes | apps/admin/src/lib/fuzzy.ts:1-12 | true if and only if the trimmed lower-cased query is a subsequence of the lower-cased input |
| Fuzzy.GreedyIsComplete | apps/admin/src/lib/fuzzy.ts:7-11 | the greedy walk finishes the needle if and only if it can be embedded at all |
| Fuzzy.SubstringIsSubsequence | apps/admin/src/lib/fuzzy.ts:5-5 | the substring test accepts nothing that the walk would not |
| Fuzzy.FewerCharactersStillMatch | apps/admin/src/lib/fuzzy.ts:1-12 | leaving characters out of a matching query, or adding some to the input, keeps the match |

## Left out

- ApiCacheEngine.Engine.Unsubscribe: the function that subscribing returns is called once; a second call is not a step of the model.
- Cache: fetchers return a promise and never throw synchronously, listeners do not call back into the engine, and the clock is a parameter of the steps that read it; `__clearApiCache` and `peekEntry` are not modelled.
- Cache: a notification's calls of the listeners are reduced to the version bump; identity of the promise that `revalidate` returns is not modelled.
- Template evaluator: property access, loose equality and Number() are parameters; the rest of support.js (React, DOM, modules) is not modelled.
- TemplateMeaning.PrintedMeaning: brackets in string contents must balance and no operator may stand in them, because the scanner reads both inside quotes; for a quoted text alone the exact condition is proved.
- Rate limiter: reading settings from the environment as text is a parameter; the caps counted in the database are inputs of a call, so no concurrent bound on them is claimed.
- Rate limiter: bounds are stated for a monotone clock and fixed settings.
- Outbox: SQL locking is the rule that a claim takes the oldest rows no open transaction holds; the queue accepts a job unless one with its id exists; payloads and job data are not modelled.
- OutboxDrain.Relay.DrainOutbox: one uninterrupted call; interleavings with other relays are steps of OutboxRelay.
- Page lifecycle: the publish gate's outcome is a parameter of publish; updates of draft fields, results and previews are left out; ids and slugs are given.
- Event stream: frames are rows and comments rather than text, the time limit of a connection is a disconnect, and the query's answer is any one that its contract allows; token check and headers are left out.
- Audience: queries without an ordering are taken to return the same sequence to both routes; which members an evaluation finds, and which definitions are of the second version, are parameters.
- DispatchWalk.SelectCandidates: the number, opt-out, suppression and attempt filters are one parameter that depends on the phone; the counts of skipped members are left out.
- HashOrder.OrderIsSorted: the hash is a parameter, so nothing about SHA-256 is used.
- Audience.LaterRunAgrees: nothing else changes the database between the two runs.
- SharedParent: parsing an origin to its host name is a parameter, empty where it fails; the message text is reduced to the parent it names; the parsing of the configured list is left out.
- Domains and SharedParent: `toLowerCase` is modelled on ASCII.
- SessionToken: the keyed hash, UTF-8, Number() and printing of numbers are parameters, with the facts about them as preconditions; the secret's lookup and timing-safe comparison are left out; decoding skips characters outside both base64 alphabets, and nothing proved depends on how such text decodes.
- PredicateValidator: the text in front of the predicate fixes the table, the projection and the absence of DISTINCT; the checks on the first two are modelled on whatever a parser returns (a table of that name in any schema passes), and DISTINCT is left out.
- QueryAnswers: refused are columns that the view lacks, columns in LIMIT and OFFSET, ungrouped columns of a grouped query, queries not grouped by the contact id, and clauses on the listed functions, none of which is an aggregate; the database refuses more (types, aggregates in a condition or without a group, run-time errors and the time limit), so for such a query the exact conditions speak of its text only. Row locks, which change no answer, are left out.
- EnvelopeScope: NOT, comparisons other than the tenant equality, casts and the truth of HAVING are open, so a condition that confines the tenant or never holds by their meaning counts as one that does not.
- Predicates: parsing is a parameter; the text of a subquery is opaque, and it and functions that are not listed may read anything; a qualified name is its last part; messages are values, one for each text.
- Permissions: resource names are given split at their first dot, and rules have no conditions; the library's last-matching-rule-wins is taken as the semantics.
- Fuzzy: `toLowerCase` is a parameter.
- Conversation paging and the context tail of the AI service: their ordering comes from the database, so they would only add easy members.
- Controllers, guards, clients of outside services, React components, contracts, configuration and label helpers.
