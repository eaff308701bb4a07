# Relaymesh verification project

Relaymesh takes a webhook, evaluates rules on its JSON payload, writes one log record per match,
publishes each match to a message bus, and lets workers report what became of it; stored events can
be replayed. This project models those parts in Dafny and proves what they promise:

| files | part of the repository |
|---|---|
| `RuleRewrite`, `RuleTokens`, `RuleEngines`, `RuleOutcomes`, `Flatten` | the rule front end: the scanner that turns JSON paths into variable names and its tokens byte by byte, the parameters bound to them, the two evaluators and what their matches say, the flat path index |
| `EventLogs`, `EventLogListing`, `PagingUnderUpdates`, `ListingOutcomes`, `Base64`, `PageTokens` | event-log queries: filters field by field, keyset paging, cursor and offset tokens |
| `Calendar`, `Timeseries`, `Breakdown`, `CountOutcomes` | time buckets and grouped breakdowns, and what they count of the records themselves |
| `StatusStore`, `StatusOutcomes`, `Publish`, `PublishOutcomes`, `Publisher` | log records and their status, the publish loop and its outcome, retries and fan-out |
| `Workers`, `WorkerOutcomes`, `WorkerPool` | handling one message; the goroutines, semaphore and error channel of a running worker |
| `Replays`, `ReplayOutcomes`, `ReplayLimiter` | one replay run, and the admission of replays |
| `Pipelines`, `PipelineFaults` | all of it together: webhooks, bus, workers and replays in any interleaving |
| `LruCache`, `CredentialOutcomes`, `ScmProvider` | the credential cache of the Go and the Python worker, and its client |
| `DriverCache`, `DriverOutcomes`, `DriverCacheRaces`, `ProviderCache`, `ProviderOutcomes`, `ProviderCacheRaces` | the per-tenant caches of publishers and of provider configurations, call by call and with overlapping calls |
| `GoText`, `Sorting`, `TextOutcomes` | the string, number and sorting functions of Go's library that the rest relies on |

Code that changes state is modelled by classes and methods with loops. Each method is proved against
a specification function, and the properties are proved about those functions, for all inputs and all
runs. The `Outcomes` modules and `RuleTokens` say what those functions mean to a caller, in terms of the
request, the records and the answers from outside alone. Clocks, brokers, generated ids, codecs, `govaluate`, `jsonpath` and JavaScript transforms are
parameters: every answer they may give is covered. Strings are Go byte strings, one `char` per byte.
Run `dafny verify dfyconfig.toml` to check everything.

Where the code falls short of what one would expect of it, the code is modelled as it is, an input that
shows the fault is given, and the exact condition under which the property holds is proved:

- Two paths can get the same variable name (`a.b` and `a_b`). Substituting the variable map back restores
  the expression if and only if its paths have distinct names.
- The flat index depends on map order if and only if two entries of one path are different nodes, as with
  the keys `a.b` and `a` over `b`; keys without `.` and `[` never do that.
- `Worker.Run` gives its error channel one place per driver but starts one goroutine per topic. It can
  wait forever if and only if some driver serves two topics; `runWithSubscriber` never does.
- Only a `queued` write is guarded: a terminal status survives a write if and only if the write is
  `queued`, `success` or `failed`; a `delivered` write does away with it.
- When the insert of the log records fails, the messages are still published, under ids no record has. A
  webhook message has its own record if and only if that insert did not fail.
- A replay publishes under the id of the record it replays, not under those of the records it makes, so
  workers report on the old record. That is the message's own record if and only if the match has the
  topic and rule of the old row.
- Replay records are written before the request is admitted; those of a rejected request stay queued
  for good, unless they are replayed themselves.
- The number of running replays is bounded while the limit is kept; after a change to any other limit the
  old runs come on top.
- Two drivers of one lower-case name, such as `amqp` and `AMQP`: the earlier publisher is dropped without
  being closed. A publisher is held if and only if no later driver has its name.
- Closing the tenant publisher again closes its fallback again, though never a cached publisher.
- A tenant named `global` shares its publisher with requests that have no tenant.
- A provider configuration that does not parse leaves the tenant's old cache entry in place. The cache is
  coherent after a write if and only if all records in scope build, or those of every cached tenant in
  scope build what they built before.
- No lock is held across a refresh of a tenant's publisher. Two overlapping rebuilds leak a publisher or
  close one twice. However rebuilds, removals and closings overlap, publishers are conserved if and only if
  each was looked up once before it left the cache, none of those left was, and the last writes to the two
  maps agree; where no removal meets a rebuild, that is if and only if no two rebuilds of a key overlap and
  no two overlapping removals both saw a publisher.
- A write that overtakes a refresh of provider configurations can leave the older one cached. When no write
  brings back what is cached or listed, the cache is coherent if and only if every entry was set from a
  listing that no write to its tenant came after.
- Credential cache keys join three texts by bars; a target gets only its own clients if and only if none
  of its three parts contains a bar.

## Model

| member | source | states |
|---|---|---|
| `RuleRewrite.LexIsLossless` | pkg/core/rules_rewrite.go:5-68 | the segments of an expression concatenate to it |
| `RuleRewrite.RewriteCommutesWithLex` | pkg/core/rules_rewrite.go:5-68 | lexing the rewritten expression gives the source's segments with each path replaced by its safe name, everything else byte for byte |
| `RuleRewrite.RewriteExpression` | pkg/core/rules_rewrite.go:5-68 | the scan loop produces the renamed segments and binds the names of exactly the path tokens |
| `RuleRewrite.RewriteWord` | pkg/core/rules_rewrite.go:38-61 | the `$` and identifier branch reads one segment and leaves the rest of the scan as it would have been |
| `RuleRewrite.BindingsAreLast` | pkg/core/rules_rewrite.go:5-68 | the variable map has exactly the paths' names, each bound to the last path that has it |
| `RuleRewrite.RestoreIffNamesDistinct` | pkg/core/rules_rewrite.go:5-68 | substituting the map back gives the source with `$.` normalisation if and only if distinct paths have distinct names |
| `RuleRewrite.PiecesMatchIffNamesDistinct` | pkg/core/rules_rewrite.go:5-68 | the same, on any sequence of named segments |
| `RuleRewrite.SafeNamesCanClash` | pkg/core/rules_rewrite.go:170-183 | `a.b` and `a_b` share the name `v___a_b`, and the map keeps only the later path |
| `RuleRewrite.ParseIdentifier` | pkg/core/rules_rewrite.go:79-90 | reads the longest identifier, from the start given |
| `RuleRewrite.NextNonSpaceIs` | pkg/core/rules_rewrite.go:92-102 | tells whether the next byte that is no blank is the one asked for |
| `RuleRewrite.ParseJSONPathToken` | pkg/core/rules_rewrite.go:104-153 | the loop over quotes, escapes and bracket depth reads exactly one path token |
| `RuleRewrite.BuildSafeVarName` | pkg/core/rules_rewrite.go:170-183 | the builder loop gives the prefixed name with every other byte made `_` |
| `RuleTokens.DottedPathIsOneToken` | pkg/core/rules_rewrite.go:155-168 | a path of letters, digits, `_`, `.` and `$` is one token up to the end or a byte of the list ` `, tab, line ends, `,;+-*/%=!<>&\|)` |
| `RuleTokens.KeywordIsKept` | pkg/core/rules_rewrite.go:47-51 | `true`, `false` and `null` stay as they are |
| `RuleTokens.CallKeepsItsName` | pkg/core/rules_rewrite.go:38-45 | `contains` and `like` are function names before a parenthesis, blanks aside, and paths otherwise |
| `RuleTokens.TokenEndsOutside` | pkg/core/rules_rewrite.go:104-153 | a token ends at the first listed byte outside quotes and brackets, counted from the left, and never inside them |
| `RuleTokens.LiteralEndsWithItsQuote` | pkg/core/rules_rewrite.go:17-36 | a string literal ends just after the quote that closes it, escapes included |
| `RuleTokens.OtherByteIsKept` | pkg/core/rules_rewrite.go:63-64 | every other byte stands for itself |
| `RuleTokens.SafeNameIs` | pkg/core/rules_rewrite.go:170-183 | a safe name is `v_` and the path with every byte but letters, digits and `_` made `_` |
| `RuleTokens.RuleOfTheDocumentation` | docs/rules.md:21 | the output and the variables of `action == "opened" && pull_request.draft == false` |
| `RuleParams.ResolveRuleParams` | pkg/core/rules_resolve.go:14-51 | the parameter map and the missing list of the variables |
| `RuleParams.PathsGetTheirOwnValue` | pkg/core/rules_resolve.go:25-42 | with distinct names, every path token gets the value at its own path and is reported missing exactly when that lookup fails or is null |
| `RuleOutcomes.PathIsReadInDocument` | pkg/core/rules_resolve.go:53-114 | a path is read in the decoded object, else the payload, else the flat data; an empty list is null and a list of one its element |
| `RuleOutcomes.NothingToReadIn` | pkg/core/rules_resolve.go:61-74 | without a document a path is null, and an error when the payload does not parse |
| `RuleOutcomes.ParamsAreValues` | pkg/core/rules_resolve.go:14-51 | every variable has its own value or null; without variables the flat data serve, if there is no payload |
| `RuleEngines.CompileAllIsPointwise` | pkg/core/rules.go:107-132 | a rule set compiles if and only if every rule does, each in its place |
| `RuleEngines.RuleEngine.Update` | pkg/core/rules.go:102-153 | a failed update changes nothing; a successful one replaces the set of its tenant, and every other tenant and the global set read as before |
| `RuleEngines.RuleEngine.EvaluateForTenant` | pkg/core/rules.go:214-267 | the topic-level loop over the tenant's rule set |
| `RuleEngines.RuleEngine.EvaluateRulesForTenant` | pkg/core/rules.go:292-343 | the rule-level loop over the tenant's rule set |
| `RuleEngines.EvaluatorsAgree` | pkg/core/rules.go:214-343 | expanding the rule-level matches gives the topic-level matches, in order, for every rule set, event and mode |
| `RuleEngines.StrictIsSubsequence` | pkg/core/rules.go:238-262 | strict mode only drops matches |
| `RuleOutcomes.StrictKeepsTheComplete` | pkg/core/rules.go:238-262 | strict mode evaluates exactly the rules of which every variable has a value that is not null, on both levels |
| `RuleOutcomes.EvaluationMeans` | pkg/core/rules.go:102-153 | from configured rules to matches: one match for every rule whose condition evaluates to true (and, in strict mode, lacks no value), for no other, in their order, saying what its rule says |
| `RuleOutcomes.TopicsInTurn` | pkg/core/rules.go:252-262 | the topic-level matches go through the rules and the topics of each, with every field of the rule |
| `RuleOutcomes.TopicsAreTrimmed` | pkg/core/rules.go:182-191 | the topics of a rule are its non-blank ones, trimmed, in their order |
| `RuleOutcomes.GeneratedIdNamesTheRule` | pkg/core/rules_resolve.go:82-100 | a generated id is the hash of condition, sorted topics and driver |
| `RuleEngines.RuleMatchesFromRules` | pkg/webhook/match_helpers.go:9-26 | one match per topic of every matched rule |
| `RuleEngines.EmitValues` | pkg/core/rules.go:182-191 | the non-blank topics, trimmed |
| `RuleEngines.RuleIdIgnoresEmitOrder` | pkg/core/rules_resolve.go:82-100 | a generated rule id does not depend on the order of the topics |
| `Flatten.Flattener.FlattenInto` | pkg/core/flatten.go:17-34 | for some order of its map loops the run stores exactly the writes of that order; every entry written is a node of the value under its rendered path, every node that needs one has an entry, and no entry goes away |
| `Flatten.Flatten` | pkg/core/flatten.go:9-15 | the result is the one of some order of the map loops, and indexes the data |
| `Flatten.PathsAreWrittenAs` | pkg/core/flatten.go:20-29 | fields are set off by dots, items by their number in brackets, lists by empty brackets |
| `Flatten.RenderInjective` | pkg/core/flatten.go:20-29 | with plain keys two walks with the same rendered path are the same walk, decimal indices included |
| `Flatten.IndexAgreesWithNavigation` | pkg/core/flatten.go:9-34 | without two different entries of one path, the entry at a path is the node that walking the path reaches |
| `Flatten.PlainKeysDoNotClash` | pkg/core/flatten.go:20-29 | keys without `.` and `[` never give two different entries one path |
| `Flatten.RootEntryCanBeLast` | pkg/core/flatten.go:9-34 | for every entry there is an order in which it is the one that stays under its path |
| `Flatten.IndexIsUnique` | pkg/core/flatten.go:9-34 | without such a clash there is one index |
| `Flatten.OrderMattersIffClash` | pkg/core/flatten.go:9-34 | two orders of the map loops give different maps if and only if two entries of one path are different nodes; every run agrees with navigation if and only if there are none |
| `Flatten.OrderCanDecide` | pkg/core/flatten.go:9-34 | two orders over one document with a dotted key, and the two maps they give |
| `Base64.RoundTrip` | pkg/api/eventlogs_service.go:613 | decoding undoes standard encoding (section 4 of RFC 4648) for every byte string |
| `TextOutcomes.ExamplesOfTheStandard` | pkg/api/eventlogs_service.go:613 | the examples of section 10 of RFC 4648 |
| `TextOutcomes.TokensAreReadByTheirText` | pkg/api/eventlogs_service.go:560-577 | a token of a number that is not negative is an offset, `c:` begins a cursor, anything else is refused |
| `TextOutcomes.CursorsAreReadByTheirText` | pkg/api/eventlogs_service.go:579-605 | a cursor is its instant and its trimmed id, and is refused without either |
| `PageTokens.CursorTokenRoundTrip` | pkg/api/eventlogs_service.go:579-614 | a cursor token gives back the trimmed id, colons included, and the instant if and only if its nanoseconds fit 64 bits; it carries no offset |
| `PageTokens.OffsetTokenRoundTrip` | pkg/api/eventlogs_service.go:560-621 | a positive offset survives its token, which is no cursor |
| `PageTokens.TokenIsCursorOrOffset` | pkg/api/eventlogs_service.go:560-605 | no token is both a cursor and an offset past the start |
| `EventLogListing.EventLogTable.ListEventLogs` | pkg/storage/eventlogs/store_list.go:13-38 | filter, cursor, order, offset and limit together give exactly the found records |
| `EventLogListing.PageSize` | pkg/api/eventlogs_service.go:52-58 | the page size is positive and capped |
| `EventLogListing.ListEventLogs` | pkg/api/eventlogs_service.go:45-130 | one more record than the page is fetched to decide on the next token; bad tokens are refused |
| `EventLogListing.ListingGoesOn` | pkg/storage/eventlogs/store_list.go:17-28 | below the record at index k the listing is its own tail after k |
| `EventLogListing.PageFrom` | pkg/api/eventlogs_service.go:52-124 | a request at a position serves the next records and a token for the position after them |
| `EventLogListing.InsertingAboveKeepsBelow` | pkg/storage/eventlogs/store_list.go:17-28 | records newer than the cursor leave the part below it alone |
| `EventLogListing.SameBelowSameListing` | pkg/storage/eventlogs/store_list.go:17-28 | tables that agree below the cursor have the same listing there |
| `EventLogListing.PagesAreExact` | pkg/api/eventlogs_service.go:52-124 | following the tokens terminates and the pages concatenate to the matching records, newest first, each once, although newer records arrive between pages |
| `EventLogListing.ListingCanBeRead` | pkg/api/eventlogs_service.go:52-124 | from any position there is such a run to the end, with any page size |
| `ListingOutcomes.FiltersApplyFieldByField` | pkg/storage/eventlogs/store_filter.go:11-53 | a record passes if and only if it is the tenant's, meets each of the ten trimmed text filters in its own field, the matched flag, the start and the end |
| `ListingOutcomes.PagesHoldWhatIsAskedFor` | pkg/api/eventlogs_service.go:52-124 | the records on the pages of a complete run are exactly those |
| `ListingOutcomes.NewestFirst` | pkg/storage/eventlogs/store_list.go:17-28 | they are listed by descending creation time, and by descending id, in byte order, within one instant |
| `ListingOutcomes.PagesAreFull` | pkg/api/eventlogs_service.go:52-124 | every page but the last is full: 50 records when no size is asked for, 200 at most |
| `ListingOutcomes.OffsetAndLimit` | pkg/storage/eventlogs/store_list.go:29-38 | an offset passes over that many records, a limit cuts off after that many |
| `PagingUnderUpdates.SameStampsSameListing` | pkg/storage/eventlogs/store_list.go:17-28 | tables in which the same ids and creation times match below the cursor list the same ids there |
| `PagingUnderUpdates.UpdatesKeepStamps` | pkg/storage/eventlogs/store_write.go:75-91 | changes of status, latency and the like, and newer records, leave those alone |
| `PagingUnderUpdates.PagesAreExactOnIds` | pkg/api/eventlogs_service.go:52-124 | while records change in that way between requests, the pages still hold the ids of the matching records, newest first, each once |
| `ListingOutcomes.IdsHoldWhatIsAskedFor` | pkg/api/eventlogs_service.go:52-124 | the same on ids, while records change between requests |
| `MockEventLogs.MockEventLogStore.ListAll` | pkg/storage/mocks_eventlogs.go:62-127 | the filter loop and an order that leaves equal instants anyhow |
| `Calendar.YearDayIsExact` | pkg/storage/mocks_eventlogs.go:471-486 | the year and day of year that the time package computes are those of the day |
| `Calendar.CivilRoundTrip` | pkg/storage/mocks_eventlogs.go:471-486 | reading year, month and day and building the date again gives the same day |
| `Calendar.MondayShiftIsFloor` | pkg/storage/mocks_eventlogs.go:478-483 | going back `(weekday + 6) % 7` days is flooring to the grid of Mondays |
| `Timeseries.BucketStartIsGridFloor` | pkg/storage/eventlogs/store_timeseries.go:137-152 | truncation, calendar dates and the weekday shift all are flooring to a grid of equal steps |
| `Timeseries.BucketsTile` | pkg/storage/mocks_eventlogs.go:458-486 | a bucket holds its instant; bucket starts are fixed points, monotone, and whole steps apart |
| `Timeseries.RecordHasBucket` | pkg/storage/mocks_eventlogs.go:303-345 | a record in range has the key of exactly one bucket |
| `Timeseries.CountRecords` | pkg/storage/mocks_eventlogs.go:298-331 | the map loop tallies every record under its bucket |
| `Timeseries.FillGaps` | pkg/storage/mocks_eventlogs.go:333-346 | the cursor loop ends and emits every bucket of the range in order, empty ones included |
| `Timeseries.CountAndFill` | pkg/storage/mocks_eventlogs.go:298-346 | both loops together, over the records in any order |
| `Timeseries.GetEventLogTimeseries` | pkg/storage/mocks_eventlogs.go:261-347 | exactly the accepted requests get buckets, each with the counts of its records |
| `Timeseries.CountsAreConserved` | pkg/storage/mocks_eventlogs.go:298-346 | the counts of all buckets sum to the totals |
| `Timeseries.TimeseriesConserves` | pkg/storage/mocks_eventlogs.go:261-347 | the buckets are contiguous, cover the range, and event, matched and failed counts sum to the totals |
| `TimeseriesOutcomes.StartsOnTheGrid` | pkg/storage/mocks_eventlogs.go:458-486 | hours begin at the full hour, days at midnight, weeks on Monday |
| `TimeseriesOutcomes.BucketCountsItsRecords` | pkg/storage/mocks_eventlogs.go:298-346 | a bucket counts the records created in it: all, the matched, the `failed` ones in any case of letters, and their different request ids |
| `Breakdown.PercentilesAreOrdered` | pkg/storage/mocks_eventlogs.go:522-540 | P50 <= P95 <= P99, and each is one of the values |
| `Breakdown.OrderIsStrict` | pkg/storage/mocks_eventlogs.go:404-417 | the comparator is a strict total order on groups with different keys |
| `Breakdown.CountRecords` | pkg/storage/mocks_eventlogs.go:369-391 | the loop tallies every record with a non-blank key under its key |
| `Breakdown.CollectGroups` | pkg/storage/mocks_eventlogs.go:392-403 | every group appears once, with its percentiles |
| `Breakdown.GroupsFromAnyOrder` | pkg/storage/mocks_eventlogs.go:392-417 | the sorted breakdown depends on neither record order nor map order |
| `Breakdown.BreakdownConserves` | pkg/storage/mocks_eventlogs.go:349-438 | event counts sum to the records with a key; matched and failed stay within the event count; keys are distinct |
| `Breakdown.GroupPercentilesAreSound` | pkg/storage/mocks_eventlogs.go:388-402 | in every returned group P50 <= P95 <= P99, each the latency of one of its records, or zero when there are none |
| `BreakdownOutcomes.GroupsCountTheirRecords` | pkg/storage/mocks_eventlogs.go:369-391 | the groups are the non-blank values of the field grouped by, and each counts its records, the matched and the `failed` ones |
| `BreakdownOutcomes.LatenciesAreTheirs` | pkg/storage/mocks_eventlogs.go:388-391 | the latencies of a group are the positive ones of its records |
| `BreakdownOutcomes.PercentileIsAtItsPlace` | pkg/storage/mocks_eventlogs.go:522-540 | a percentile of n ascending values is the one at the last place not beyond (n - 1) * p |
| `BreakdownOutcomes.ListedByFigure` | pkg/storage/mocks_eventlogs.go:404-417 | the list descends, or ascends, by the count asked for; equal counts are listed by ascending, or descending, keys |
| `Breakdown.GetEventLogBreakdown` | pkg/storage/mocks_eventlogs.go:349-438 | the page of the sorted breakdown at the token's offset, or an error for a bad token |
| `Breakdown.PageFrom` | pkg/storage/mocks_eventlogs.go:419-437 | one request serves the next groups and the token of the offset after them |
| `Breakdown.PagesAreExact` | pkg/storage/mocks_eventlogs.go:419-437 | following the tokens serves the whole sorted list, each group once |
| `Breakdown.BreakdownCanBeRead` | pkg/storage/mocks_eventlogs.go:419-437 | there always is such a run to the end, whatever page size is asked for |
| `StatusStore.Store.CreateEventLogs` | pkg/storage/eventlogs/store_write.go:17-52 | defaults are filled in and all rows are inserted, or none |
| `StatusStore.Store.UpdateEventLogStatus` | pkg/storage/eventlogs/store_write.go:55-108 | which row is written, with which latency, and when the call fails |
| `StatusOutcomes.NewRowIsFilledIn` | pkg/storage/eventlogs/store_write.go:17-53 | a new row keeps what it brings, and gets id, tenant, `queued`, instant and latency where it has none |
| `StatusOutcomes.OneStatusWrite` | pkg/storage/eventlogs/store_write.go:55-108 | a write changes the one row it reaches, field by field; a `queued` write reaches no terminal row |
| `StatusOutcomes.StatusWriteFails` | pkg/storage/eventlogs/store_write.go:55-108 | it fails for blank arguments, and without a row unless it is a `queued` one |
| `StatusOutcomes.LatencyIsInMilliseconds` | pkg/storage/eventlogs/store_write.go:80-86 | latencies are whole milliseconds, rounded toward zero |
| `StatusStore.TerminalStaysIffOrdinary` | pkg/storage/eventlogs/store_write.go:55-108 | a terminal row stays terminal under a write if and only if the write is queued, success or failed |
| `StatusStore.DeliveredOverwritesSuccess` | pkg/storage/eventlogs/store_write.go:87-91 | a `delivered` write replaces `success` |
| `StatusStore.RunIsLastTerminalWrite` | pkg/storage/eventlogs/store_write.go:55-108 | after any run of ordinary writes a row shows the last terminal write to it, its message and its latency |
| `StatusStore.OtherRowsStay` | pkg/storage/eventlogs/store_write.go:55-108 | rows of other ids or tenants do not change, and no row comes or goes |
| `StatusStore.TerminalIsForGood` | pkg/storage/eventlogs/store_write.go:55-108 | a terminal row never leaves the terminal set; under a monotone clock its latency is never negative and never shrinks |
| `Publish.BuildEventLogRecords` | pkg/webhook/event_logging.go:65-124 | one queued record per topic-level match, aligned with the matches; one ignored record when nothing matched |
| `Publish.LogsAndMatchesAlign` | pkg/webhook/event_logging.go:88-123 | for any matched rules, records and matches are equally many, and at the place of every topic of every rule both carry that topic, the rule's id, condition and driver |
| `Publish.LogEventMatches` | pkg/webhook/event_logging.go:51-63 | the records are returned whether or not the insert went through; if it did, each is in the table, queued |
| `Publish.PublishDynamicMatch` | pkg/webhook/publish.go:84-121 | when the dynamic path is skipped, fails or succeeds, and the one call it makes |
| `Publish.PublishMatch` | pkg/webhook/publish.go:22-81 | everything done for one match, in order |
| `Publish.PublishMatchesWithFallback` | pkg/webhook/publish.go:13-82 | the loop does that for every match |
| `Publish.OneMatch` | pkg/webhook/publish.go:22-81 | at most one publish call, by the fallback only when the dynamic path was skipped; `failed` is written exactly when the match ends in an error |
| `Publish.WholePublish` | pkg/webhook/publish.go:13-82 | each record is written `failed` once or not at all, and `success` never |
| `PublishOutcomes.FailedUnlessPublished` | pkg/webhook/publish.go:21-82 | one match: no `failed` write if and only if some publish call returned nil, or the transform went through and there was nobody to call |
| `PublishOutcomes.FailedTransformIsReported` | pkg/webhook/publish.go:29-37 | a transform that fails publishes nothing and writes `failed` |
| `PublishOutcomes.TransformedIsPublished` | pkg/webhook/publish.go:38-47 | what is published is the transform's answer, and it is what is stored |
| `PublishOutcomes.EffectsInParts` | pkg/webhook/publish.go:21-82 | a match stores its payload, makes its one publish call, by its own publisher or the shared one, and reports, in this order |
| `PublishOutcomes.LoopReportsTheUnsettled` | pkg/webhook/publish.go:21-82 | after the loop a record is `failed` if and only if its transform failed, its publisher could not be built or its call returned an error |
| `PublishOutcomes.RecordSays` | pkg/webhook/event_logging.go:65-125 | every field of a record, from its match and its event |
| `Publish.MessagesCarryTheirRecord` | pkg/webhook/publish.go:22-30 | every message carries the id of a record made for its own topic, rule and condition |
| `Publisher.RetryPublish` | pkg/core/publisher.go:368-393 | the retry loop, with its default of one attempt and its early stop |
| `Publisher.RetryBuild` | pkg/core/publisher.go:253-271 | the building loop of ten attempts |
| `Publisher.RetryAccounts` | pkg/core/publisher.go:368-393 | at most the given attempts, a stop at the first success, nil if and only if an attempt succeeded |
| `Publisher.PublishForDrivers` | pkg/core/publisher.go:412-436 | the calls made for the listed or default drivers, and when the result is nil |
| `Publisher.SendsAccount` | pkg/core/publisher.go:412-436 | each known target gets one send; dead-letter sends equal the failed sends to other drivers when that driver is present, and none otherwise |
| `Publisher.NilIffAllDelivered` | pkg/core/publisher.go:412-436 | nil if and only if all targets are known and their sends succeed |
| `Publisher.NewPublisher` | pkg/core/publisher.go:60-88 | the multiplexer built from the drivers that could be built, or an error |
| `Publisher.DefaultsAreKnown` | pkg/core/publisher.go:60-88 | its default drivers are exactly those it holds, so publishing to them meets no unknown driver |
| `Publisher.RepeatedNameDropsFirst` | pkg/core/publisher.go:60-88 | drivers `amqp` and `AMQP`, both built: the first publisher is in no entry of the map |
| `Publisher.BuiltIsHeldIffLast` | pkg/core/publisher.go:60-88 | a built publisher is held if and only if no later driver has its lower-case name |
| `Workers.Worker.constructor` | sdk/go/worker/worker.go:43-56 | the defaults, which satisfy the worker's invariant |
| `Workers.Worker.WithConcurrency` | sdk/go/worker/options.go:20-26 | the concurrency stays positive |
| `Workers.Worker.WithRetryCount` | sdk/go/worker/options.go:53-60 | the retry count is never negative |
| `Workers.Worker.HandleRule` | sdk/go/worker/worker.go:80-89 | which registrations are ignored, and the id they are kept under |
| `Workers.Worker.PrepareRuleSubscriptions` | sdk/go/worker/worker.go:378-410 | subscribes rule by rule up to the first unusable rule, keeping topics, handlers and drivers together |
| `Workers.Worker.PrepareRule` | sdk/go/worker/worker.go:383-408 | one rule is subscribed, or refused without a trace |
| `Workers.SubscribedIsConsistent` | sdk/go/worker/worker.go:402-407 | every subscribed topic has a handler and a usable driver, those of the last rule registered for it |
| `Workers.Worker.TopicsByDriver` | sdk/go/worker/worker.go:217-230 | the topics grouped by trimmed driver; it fails exactly when there are none or one has no driver, and after a successful preparation only when there are none |
| `Workers.GroupBy` | sdk/go/worker/worker.go:221-228 | the grouping loop: each key gets its items in order |
| `Workers.UniqueOf` | sdk/go/worker/worker.go:356-367 | each value once, at its first place |
| `Workers.UniqueKeepsEachOnce` | sdk/go/worker/worker.go:356-367 | no value is lost or repeated, and distinct values stay as they are |
| `Workers.Worker.ApplyMiddleware` | sdk/go/worker/worker.go:348-354 | the backward loop makes the first middleware the outermost |
| `Workers.WrapComposes` | sdk/go/worker/worker.go:348-354 | middleware added later wraps closer to the handler |
| `Workers.Worker.HandleMessage` | sdk/go/worker/worker.go:279-346 | the calls and the status write of one message, and the wish to have it back |
| `Workers.Worker.OnMessage` | sdk/go/worker/worker.go:190-198 | only AMQP messages that were not finished well go back to the bus |
| `WorkerOutcomes.RecordSaysHowItEnded` | sdk/go/worker/worker.go:279-346 | the record is written once, `success` if and only if the message decoded, its client was built and it had no handler or an attempt returned nil |
| `WorkerOutcomes.CallsAreAttempts` | sdk/go/worker/worker.go:312-331 | the topic's handler goes before the type's; the n-th call is the n-th attempt, after n failures |
| `WorkerOutcomes.OnlyAmqpGoesBack` | sdk/go/worker/worker.go:371-376 | only messages whose driver is `amqp`, in any case of letters, go back to the bus |
| `WorkerOutcomes.RulesAreSubscribed` | sdk/go/worker/worker.go:378-420 | which rules are subscribed, on which topic and driver |
| `WorkerOutcomes.TopicsGoToTheirDriver` | sdk/go/worker/worker.go:217-236 | a topic is listened to on its trimmed driver and on no other |
| `Workers.HandlingAccounts` | sdk/go/worker/worker.go:279-346 | at most retryCount + 1 calls, all but the last failed, then exactly one status write if there is an id; `success` if and only if there was no handler or the last call succeeded |
| `WorkerPool.EveryRunIsSafe` | sdk/go/worker/worker.go:170-215 | in every reachable state handlers in flight equal the filled slots and are at most `concurrency`; the result is non-nil if and only if some goroutine sent an error, and is one that was sent |
| `WorkerPool.SendNeverBlocks` | sdk/go/worker/worker.go:182-204 | with a place for every subscription no send to the error channel can block |
| `WorkerPool.CallbacksGoOn` | sdk/go/worker/worker.go:191-193 | the semaphore cannot jam |
| `WorkerPool.WorkOnlyShrinks` | sdk/go/worker/worker.go:199-207 | every step of the goroutines makes the remaining work smaller |
| `WorkerPool.ShutdownCompletes` | sdk/go/worker/worker.go:182-207 | once the context is done and all Start calls have returned, the wait completes |
| `WorkerPool.DeadlockIsForGood` | sdk/go/worker/worker.go:150-160 | a deadlocked pool stays deadlocked whatever is done |
| `WorkerPool.DeadlockIsReachable` | sdk/go/worker/worker.go:127-160 | with fewer places than subscriptions a run leads to a deadlock |
| `WorkerPool.DeadlockIffTooSmall` | sdk/go/worker/worker.go:127-160 | a deadlock is reachable if and only if there are fewer places than subscriptions |
| `WorkerPool.Launch` | sdk/go/worker/worker.go:130-157 | one subscription per distinct topic of every driver |
| `WorkerPool.RunDeadlocksIffDriverShared` | sdk/go/worker/worker.go:122-168 | Run can deadlock if and only if some driver serves more than one topic |
| `Replays.BuildReplayEvent` | pkg/webhook/replay_helpers.go:12-50 | which records can be replayed; the event carries the record's own fields, payload and id |
| `Replays.ReplayGivesTheEventBack` | pkg/webhook/replay_helpers.go:12-50 | whatever statuses were written meanwhile, replaying a webhook record gives the logged payload, tenant and source back |
| `Replays.ResolveDriver` | pkg/api/eventlogs_service.go:528-558 | which lookups count, and which of their answers are errors |
| `Replays.BuildReplayEventLogRecords` | pkg/api/eventlogs_service.go:458-491 | one queued record per match, index by index |
| `Replays.ReplayMatch` | pkg/api/eventlogs_service.go:410-455 | one round of the replay loop, on every error path |
| `Replays.RunReplayAsync` | pkg/api/eventlogs_service.go:394-456 | the whole run; every publisher it made is closed exactly once at the end |
| `ReplayOutcomes.RecordEndsAsPublished` | pkg/api/eventlogs_service.go:410-455 | a match is published if and only if its driver is found enabled, its transform goes through and it has a publisher; its record ends `success` if that call returns nil, and `failed` in every other case |
| `ReplayOutcomes.OnePublisherPerDriver` | pkg/api/eventlogs_service.go:427-446 | a run makes one publisher per trimmed driver name, and none where one is shared or was made before |
| `Replays.EveryMadeIsHeldOnce` | pkg/api/eventlogs_service.go:427-446 | every publisher made is held under one driver name, and none is made when one is shared |
| `Replays.OneTerminalEach` | pkg/api/eventlogs_service.go:394-456 | each record gets exactly one status, `success` if and only if its own match was published without an error |
| `Replays.NoOtherWrites` | pkg/api/eventlogs_service.go:394-456 | no status is written for any other id |
| `Replays.ReplayKeepsToItself` | pkg/api/eventlogs_service.go:394-456 | messages go to the topics of the matches, under the old record's id |
| `ReplayLimiter.ReplayService.Limiter` | pkg/api/eventlogs_service.go:515-526 | the channel in use, a new one when the limit differs from its capacity |
| `ReplayLimiter.ReplayService.Admit` | pkg/api/eventlogs_service.go:377-386 | a token is taken or the request rejected |
| `ReplayLimiter.ReplayService.ReplayEventLog` | pkg/api/eventlogs_service.go:357-386 | the rows are written first and stay when the queue is full |
| `ReplayLimiter.RunningIsBounded` | pkg/api/eventlogs_service.go:377-386 | with the limit kept, no interleaving runs more than `limit` replays, and a request is rejected if and only if `limit` run |
| `ReplayLimiter.RejectedStaysRejected` | pkg/api/eventlogs_service.go:384-386 | a rejected request starts no replay, then or later |
| `ReplayLimiter.RunningCanFinish` | pkg/api/eventlogs_service.go:380-382 | a running replay can always give its token back |
| `ReplayLimiter.ChangedLimitIsExceeded` | pkg/api/eventlogs_service.go:515-526 | any change of the limit can be exceeded by the replays admitted before |
| `Pipelines.TodoIsTheLoop` | pkg/webhook/publish.go:13-82 | the webhook goroutine of the machine does exactly what the publish loop does |
| `Pipelines.ReplayTodoIsTheLoop` | pkg/api/eventlogs_service.go:410-455 | the replay goroutine of the machine does exactly what the replay loop does |
| `Pipelines.StepKeepsInvariant` | pkg/webhook/publish.go:21-82 | every step of webhooks, bus, workers and replays keeps the invariant |
| `Pipelines.EveryRunIsSafe` | sdk/go/worker/worker.go:279-346 | in every interleaving: a webhook message has the record of its own topic and rule if and only if that insert did not fail, and a replayed one if and only if its match has the topic and rule the old row had when the replay was requested; a handling makes at most retryCount + 1 calls and one status write; a non-replay record is `success` only if a worker finished a message with its id well or had no handler |
| `Pipelines.WriteIsBacked` | sdk/go/worker/worker.go:317-346 | the write that makes a record `success` finishes such a handling |
| `Pipelines.NothingLostWithoutFailure` | pkg/webhook/event_logging.go:55-62 | ids go without a record only through failed inserts |
| `Pipelines.FailedInsertOrphans` | pkg/webhook/event_logging.go:55-62 | after a failed insert every delivered message is on the bus under an id that no record has |
| `PipelineFaults.OrphanHappens` | pkg/webhook/event_logging.go:55-62 | a concrete run: one webhook whose insert fails leaves a message without a record |
| `Pipelines.ReplayCarriesOldId` | pkg/webhook/replay_helpers.go:48 | a replayed message carries the id of the old record, which is its own record if and only if the match has that record's topic and rule |
| `Pipelines.OwnRecordIsKept` | pkg/storage/eventlogs/store_write.go:55-134 | no later run changes whether a record is a message's own |
| `PipelineFaults.MislabelHappens` | pkg/api/eventlogs_service.go:394-456 | a concrete run: after a change of rules a replayed message names a record made for another topic |
| `Pipelines.RejectedReplayStaysQueued` | pkg/api/eventlogs_service.go:357-386 | the records of a rejected replay stay queued in every run, unless they are replayed themselves |
| `LruCache.ScmClientCache.Get` | sdk/go/worker/scm_client_provider.go:196-214 | list and map stay linked, and together they are the most-recent-first sequence after the lookup |
| `LruCache.ScmClientCache.Add` | sdk/go/worker/scm_client_provider.go:216-240 | the same for an insert, an overwrite and the eviction loop |
| `LruCache.ScmClientCache.constructor` | sdk/go/worker/scm_client_provider.go:185-194 | an empty cache of size at least one |
| `LruCache.PyClientCache.Get` | sdk/python/worker/relaymesh/scm_client_provider.py:150-161 | the Python cache refines the same sequence |
| `LruCache.PyClientCache.Add` | sdk/python/worker/relaymesh/scm_client_provider.py:163-177 | the same for its insert |
| `LruCache.RunKeepsValid` | sdk/go/worker/scm_client_provider.go:196-240 | in every trace at most `size` slots, one per key |
| `LruCache.GetIsNotStale` | sdk/go/worker/scm_client_provider.go:196-214 | an answer is the key's own client and not expired; an expired entry is gone |
| `CredentialOutcomes.OnlyFreshIsAnswered` | sdk/go/worker/scm_client_provider.go:196-247 | a lookup answers exactly with the key's own client that has no expiry or one not passed, skew deducted; one that has passed is removed |
| `CredentialOutcomes.PythonBound` | sdk/python/worker/relaymesh/scm_client_provider.py:196-201 | in Python it has passed from the bound on |
| `LruCache.StepRetains` | sdk/go/worker/scm_client_provider.go:196-240 | a step elsewhere keeps a key and lets only the touched key ahead of it |
| `LruCache.TouchedKeyIsRetained` | sdk/go/worker/scm_client_provider.go:196-240 | a touched key stays cached while fewer than `size` other keys are touched, unless a Get finds it expired |
| `LruCache.OneMoreKeyEvicts` | sdk/go/worker/scm_client_provider.go:231-239 | that bound is tight for every size and cache: adding `size` other keys pushes the touched key out and leaves just those keys |
| `LruCache.SlotsAreLatestAdds` | sdk/go/worker/scm_client_provider.go:216-240 | every slot holds the last client and expiry added for its key |
| `LruCache.ExpiryDiffersOnlyAtBound` | sdk/python/worker/relaymesh/scm_client_provider.py:196-201 | the two expiry tests differ exactly at the bound |
| `ScmProvider.ClientFor` | sdk/go/worker/scm_client_provider.go:110-142 | a hit is answered from the cache; a fetched client is cached and answered; errors leave no entry |
| `CredentialOutcomes.WhatARequestIsFor` | sdk/go/worker/scm_client_provider.go:110-124 | a request without provider or installation fails; any other is for its trimmed texts |
| `CredentialOutcomes.FetchedIsCached` | sdk/go/worker/scm_client_provider.go:124-142 | a fresh credential is answered without the service; a fetched one is cached in front and is what the next request gets while it is fresh |
| `ScmProvider.KeyTellsApart` | sdk/go/worker/scm_client_provider.go:124 | a target without bars shares its key with no other target |
| `ScmProvider.KeyIsOwnIffBarFree` | sdk/go/worker/scm_client_provider.go:124 | a target has a key of its own, among all texts, if and only if no part of it contains a bar |
| `ScmProvider.KeysCanClash` | sdk/go/worker/scm_client_provider.go:110-124 | two named requests the provider accepts and that share one key |
| `ScmProvider.OnlyOwnClients` | sdk/go/worker/scm_client_provider.go:110-142 | after any requests whatever, a request for a bar-free target is answered with a client fetched for that target |
| `ScmProvider.OtherTargetsClient` | sdk/go/worker/scm_client_provider.go:124-137 | for any other target, one earlier request makes the provider hand out another target's client |
| `ScmProvider.OwnClientsIffBarFree` | sdk/go/worker/scm_client_provider.go:110-142 | all answers for a target are its own, over all histories, if and only if it is bar-free |
| `DriverCache.CacheKeyClash` | pkg/drivers/cache.go:176-181 | cache keys tell tenants apart except `global` and no tenant |
| `DriverCache.Cache.Refresh` | pkg/drivers/cache.go:39-49 | the new state, which keeps every publisher accounted for |
| `DriverCache.Cache.RefreshTenant` | pkg/drivers/cache.go:51-74 | remove, rebuild or keep the tenant's publisher |
| `DriverCache.Cache.PublisherFor` | pkg/drivers/cache.go:77-102 | the cached publisher, after a refresh when there was none |
| `DriverCache.Cache.Close` | pkg/drivers/cache.go:105-126 | every cached publisher is closed once and the caches are emptied |
| `DriverOutcomes.ConfigListsTheEnabled` | pkg/drivers/config.go:41-60 | a configuration lists the enabled, named drivers in their order, and fails for one that is unsupported or does not parse |
| `DriverOutcomes.RefreshDoes` | pkg/drivers/cache.go:51-74 | when a refresh keeps, removes or replaces the key's publisher, and what is closed |
| `DriverCache.RunConserves` | pkg/drivers/cache.go:39-126 | in every sequential run each publisher ever built is cached for exactly one key and open, or closed exactly once; both caches have the same keys |
| `DriverCache.CloseIsFinal` | pkg/drivers/cache.go:105-126 | after Close nothing is open, and closing again closes nothing |
| `DriverCache.RefreshIsLocal` | pkg/drivers/cache.go:51-74 | a refresh touches one key; a failed one keeps the old publisher open, a successful one closes it |
| `DriverCache.TenantPublisher.PublisherFor` | pkg/drivers/cache.go:159-174 | a call goes to the tenant's own open publisher; only calls without a tenant can go to the fallback |
| `DriverCache.TenantPublisher.Close` | pkg/drivers/cache.go:149-157 | the cache and then the fallback are closed |
| `DriverCache.FallbackIsClosedAgain` | pkg/drivers/cache.go:149-157 | n Close calls close each cached publisher once and the fallback n times, so nothing is closed twice if and only if there is no fallback or one call |
| `DriverCacheRaces.AloneItRebuilds` | pkg/drivers/cache.go:51-74 | with nothing in between, the steps of a rebuild do what a refresh by itself does |
| `DriverCacheRaces.AloneItRemoves` | pkg/drivers/cache.go:56-62 | so do those of a removal |
| `DriverCacheRaces.BetweenTheWrites` | pkg/drivers/cache.go:56-72 | a rebuild sets the configuration first, a removal deletes the publisher first |
| `DriverCacheRaces.StepTallied` | pkg/drivers/cache.go:51-74 | every single Get, Close, Set and Delete, in any overlap, keeps the count of lookups per publisher equal to its closes, done and to come |
| `DriverCacheRaces.ConservedIffSeenOnce` | pkg/drivers/cache.go:39-126 | in every interleaving of rebuilds, removals and closings, once all are over: each publisher ever built is cached and open or closed exactly once, and the two maps agree, if and only if the order of the steps lets each publisher be looked up once before it leaves the cache, none of those left, and ends on like writes to both maps |
| `DriverCacheRaces.StepStaysOrderly` | pkg/drivers/cache.go:51-74 | while no two refreshes clash, one in its window has claimed the publisher of its key or there is none |
| `DriverCacheRaces.ClashSpoils` | pkg/drivers/cache.go:67-72 | the first clash makes two refreshes see one publisher, or lets two rebuilds write after finding none |
| `DriverCacheRaces.ConservedIffApart` | pkg/drivers/cache.go:39-126 | where no removal meets a rebuild of its key: conserved if and only if no two rebuilds of a key overlap between lookup and last write and no two overlapping removals both saw a publisher; without any such overlap, conserved in any case |
| `DriverCacheRaces.ExclusiveRunsConserve` | pkg/drivers/cache.go:39-126 | in every interleaving in which no two refreshes of one key overlap, rebuilds and removals leave each publisher cached and open or closed once |
| `DriverCacheRaces.ConservedIffExclusive` | pkg/drivers/cache.go:51-102 | with refreshes that rebuild or fail, publishers are conserved if and only if no two refreshes of one key overlap between the lookup of the old publisher and the write of the new one |
| `DriverCacheRaces.LeakHappens` | pkg/drivers/cache.go:77-102 | a run: two overlapping rebuilds of an empty key leave the first publisher neither cached nor closed |
| `DriverCacheRaces.DoubleCloseHappens` | pkg/drivers/cache.go:67-72 | a run: two overlapping rebuilds of a cached key close its publisher twice |
| `DriverCacheRaces.ClosingIsRemoving` | pkg/drivers/cache.go:105-126 | closing the cache is a removal of every cached key, all looked up and closed before any is deleted; on its own it does what Close does |
| `ProviderCache.Cache.RefreshTenant` | pkg/providerinstance/cache.go:64-80 | the tenant's entry is rebuilt, removed, or kept when a record does not parse |
| `ProviderCache.Cache.Refresh` | pkg/providerinstance/cache.go:33-62 | it succeeds if and only if all tenants in scope build; then their entries are rebuilt, else each is old or rebuilt |
| `ProviderCache.Cache.ConfigFor` | pkg/providerinstance/cache.go:83-103 | a coherent cache stays coherent and answers what the store holds; its errors |
| `ProviderCache.UpsertProvider` | pkg/api/providers_service.go:71-142 | which requests are accepted, the stored rows and the cache afterwards |
| `ProviderCache.DeleteProvider` | pkg/api/providers_service.go:144-163 | the same for a deletion |
| `ProviderOutcomes.NamesAreNormal` | pkg/auth/providers.go:15-22 | names are trimmed, in lower case, with underscores for hyphens, and `jira` is `atlassian` |
| `ProviderOutcomes.AcceptedRow` | pkg/api/providers_service.go:71-132 | which requests are accepted, told on the stored instances, and every field of the row |
| `ProviderOutcomes.DeletedAreGone` | pkg/api/providers_service.go:144-163 | a deletion takes away exactly the tenant's instances with provider and key |
| `ProviderOutcomes.EntriesAreParsed` | pkg/providerinstance/cache.go:64-80 | the map has an entry for every record, under provider and key, with its parsed configuration and flag |
| `ProviderOutcomes.LookupFindsTheInstance` | pkg/providerinstance/cache.go:83-103 | a lookup finds the tenant's instance with provider and key, parsed, and none without one |
| `ProviderCache.UpsertKeepsOnePerProvider` | pkg/api/providers_service.go:85-132 | a named tenant keeps at most one instance per provider |
| `ProviderCache.DeleteKeepsOnePerProvider` | pkg/api/providers_service.go:144-163 | so it does under deletion |
| `ProviderCache.CoherentIffTenantBuilds` | pkg/api/providers_service.go:133-137 | after a write for a named tenant the cache is coherent if and only if the tenant's records build or it had no entry |
| `ProviderCache.CoherentIffBuilds` | pkg/api/providers_service.go:133-137 | for any tenant or none: every outcome of the refresh is coherent if and only if all records in scope build, or those of every cached tenant in scope build to the map they built before |
| `ProviderCache.RunsStayCoherent` | pkg/providerinstance/cache.go:33-103 | over any sequential run with parsable configurations every cached map is the one the store gives, and instances stay unique |
| `ProviderCacheRaces.StepKeepsMarks` | pkg/providerinstance/cache.go:33-113 | in every interleaving, entries and listings that no write came after are those of the stored records, and with fresh writes the others differ from them |
| `ProviderCacheRaces.CoherentIffNotOvertaken` | pkg/providerinstance/cache.go:33-113 | in every interleaving of refreshes of one tenant or of all, writes and closings, where no write brings back an entry that is cached or still listed: the cache is coherent if and only if every entry was set from a listing that no write to its tenant came after |
| `ProviderCacheRaces.QuietIsCoherent` | pkg/providerinstance/cache.go:33-80 | hence, if all records parse and no write overtakes a refresh of its tenant between listing and setting, the cache is coherent whenever no refresh is under way |
| `ProviderCacheRaces.OvertakenIsStale` | pkg/providerinstance/cache.go:33-80 | a run in which a write overtakes a refresh and the older configuration stays cached |
| `ProviderCache.UnparsableLeavesStale` | pkg/api/providers_service.go:133-137 | a configuration that does not parse leaves a stale entry |

## Left out

- HTTP handlers, Connect and gRPC glue, the CLI, OAuth exchanges, namespace synchronisation, webhook registration: input, output and field copying.
- SQL dialects, GORM and migrations: a query is its filter, order and limit, and text is compared byte by byte whatever the collation.
- The SQL timeseries and breakdown: the computation followed is the in-memory one; only the bucket functions of the SQL store are modelled.
- Event-log analytics, provider name tables, configuration defaults, proto conversions: easy members without a deep property.
- `govaluate`, `jsonpath`, `goja`, JSON, protobuf and SHA-256: functions or answers given as parameters.
- Broker adapters: a publish call may deliver and fail, and the bus may duplicate or lose; redelivery after a nack is a duplicate made beforehand.
- Panics of handlers, and subscribers that are nil: not part of the worker's machine.
- The listeners of a worker and its log lines: they change no state of the model.
- A nil fallback publisher: the source calls it without a check, and the model always has one.
- Locks: the rule engine, the credential caches and the limiter hold theirs for a whole operation, which is one atomic step; the tenant caches do not, and their overlapping calls are in `DriverCacheRaces` and `ProviderCacheRaces`.
- DriverCacheRaces.ConservedIffApart: is about runs in which no removal meets a rebuild of the same key; what such meetings do depends on the order of their writes, and `DriverCacheRaces.ConservedIffSeenOnce` covers them.
- ProviderCacheRaces.CoherentIffNotOvertaken: a write that brings back the very entry that is cached can make a marked entry right again; without a mark the cache is coherent whatever the writes.
- ProviderCacheRaces.QuietIsCoherent: asks for records that parse, since a refresh that fails leaves its tenant to the next one.
- Breakdown.PercentilesAreOrdered: reals with floor in place of float64 arithmetic.
- StatusStore.Store.UpdateEventLogStatus: database errors other than a missing row are not modelled, because they leave the table alone.
- EventLogListing.PagesAreExact: `PagingUnderUpdates.PagesAreExactOnIds` lets records change between requests; both ask for unique trimmed ids and times whose nanoseconds fit 64 bits, which is what a cursor can carry.
- Flatten.IndexAgreesWithNavigation: asks that no two different entries have one path; `Flatten.OrderMattersIffClash` shows that this is exactly what is needed.
- ProviderCache.RunsStayCoherent: asks for configurations that parse; `ProviderCache.CoherentIffBuilds` says what happens otherwise.
- ProviderCache.Cache.Refresh: the store's own listing errors are not modelled, and records are kept in the order of their insertion rather than in the order of the listing query.
- Workers.Worker.PrepareRuleSubscriptions: a failed lookup of a rule and a rule that does not exist are one error.
- Pipelines.EveryRunIsSafe: a write that is lost on its way to the store is a write made without effect; rules that match at replay time are arbitrary.
- GoText.Lower: changes ASCII letters only; driver names are ASCII words.
