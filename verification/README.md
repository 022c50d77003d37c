# A model of the AetherCode router

The router relays chat and completion requests to upstream providers. Several replicas share one
SQL database; each keeps an in-memory routing index, retries across providers, matches routes,
checks API keys and writes a billing ledger. This project states what that code is for and proves
it of a Dafny model that follows it branch by branch. `dafny verify dfyconfig.toml` checks all of it.

| module | what it holds |
|---|---|
| `Text`, `Sorting`, `Wrappers` | string trimming, splitting and ordering; stable sort; result types |
| `Providers` | provider and channel rows, their defaults, capability normalisation |
| `Weighted` | the weighted sampler with its int64 arithmetic |
| `RoutingIndex`, `RoutingCache` | the index as a function and its plain-scan meaning; the cache class that builds and reads it |
| `Targets` | the address, key and names of the row behind a selection |
| `Database`, `LegacyImport`, `RoutedIds` | the mutating transactions, the legacy import, the identity of rows and routed providers |
| `ImportedTraffic` | where requests go after an import |
| `Collisions` | requests when a legacy provider and a channel are routed under one ID |
| `Withdrawal` | what each mutation writes, and that nothing taken out of service is selected |
| `ConfigSync`, `LabelOrder` | cache synchronisation as a state machine over writers and concurrent reloaders; when its label goes forward only |
| `Relay`, `RelayProperties` | the retry loop, commit tracking and response copy; what holds of every run |
| `Pricing`, `Ledger`, `LedgerRuns` | price resolution; the ledger's two writes under retries, races and crashes; what holds of every run of them |
| `Usage`, `Billing` | what a relay records; from the log of a relay to the event and the charge in the books |
| `ApiKeys`, `KeySync` | key validation and its prefix index; key life cycle and key cache over runs |
| `Routes`, `RouteMatrix`, `ServedRoutes` | the route matcher; the router's own matrix; what it promises path by path |
| `ModelPaths`, `ModelRequests` | asking for one model by name: what the matcher answers, and what the server does to the path before |
| `Endpoint` | base URL normalisation |

Objects that the router updates in place are classes (`Cache`, `APIKeyCache`, `Store`,
`ResponseCommitTracker`, `RelayAttemptState`), its loops are methods with invariants, and each
method is tied to a function or relation about which the properties are proved. Protocols are
step relations: every database read, every transaction and every install is a step of its own.
`rand.Intn(n)` is an arbitrary draw modulo `n`; HMAC is an injective constructor; upstream
behaviour, secrets and times are parameters. The database assigns every row a non-zero ID. A
request's context ends when its client goes away, which a failed write to the client shows, and a
database write under an ended context is refused.

## Where the code does not do what one would expect

Each comes with the exact condition under which it happens, for all inputs.

- The label of the provider cache can go backwards when reloads overlap (`ConfigSync.LabelCanGoBack`).
  It does exactly when a reload that read its version before a raising write installs after one
  that read it later (`LabelOrder.DropsExactly`), so never when reloads do not overlap
  (`LabelOrder.AloneIsMonotone`). The synchronisation is safe in any case, because the version is
  read before the data.
- A legacy provider ID equal to 1,000,000 plus a channel ID hides the provider from every request:
  requests for its models go to the channel, or fail when the channel is disabled, excluded or not
  capable (`Collisions.CollisionMisroutes`). Such collisions do no harm exactly when the hidden
  providers serve nothing (`Collisions.HarmlessExactly`).
- Weights are uint64 and are summed into an int. A selection panics exactly when it draws among
  two or more places whose total has its 64th bit set (`Weighted.PickPanicsExactly`,
  `RoutingIndex.SelectPanicsExactly`), and a relay that meets such a selection ends with neither
  response nor usage record (`RelayProperties.AbortsExactly`). Two weights of 2^62 are enough
  (`Weighted.OverflowPanics`).
- Usage is recorded under the request's own context. A client that cannot take its whole response
  has been served the part it took, but is neither recorded nor charged
  (`Billing.LostClientExactly`, `Billing.RelayAndRecord`); what is left of a relay is decided exactly by
  that and by which of the two writes fails (`Billing.RelayIsBilledExactly`).
- The path of a model is cut at a question mark, cleaned and decoded by the server, and decoded again
  by the route matcher. Escaped once, a model is reached under its own name exactly when the name holds neither a slash nor
  a percent sign and is neither `.` nor `..` (`ModelRequests.EscapedOnceExactly`, for any escaping
  `ModelRequests.ModelReachedExactly`); `a/b` and `50%` are not found, `%41` is answered as `A`, and
  `..` is redirected (`ModelRequests.MissedNames`). Sent raw, `a?b` is answered as `a`
  (`ModelRequests.RawNames`).
- An imported channel loses the provider's API key (its secret reference resolves to nothing), and
  keeps an authentication prefix exactly when it has no surrounding space, which an explicit
  `"Bearer "` has (`LegacyImport.ImportedChannelProjects`). It joins the provider in its tier at the same
  weight, so that requests are shared with an upstream that gets no key
  (`ImportedTraffic.ImportSendsToKeyless`).
- The stored model string is a fixed point of the defaults exactly when no white space stands on the
  inner side of its outer commas (`Providers.ModelStringFixedExactly`, `Providers.ModelStringNotFixed`),
  although the list it stands for always is one.
- Normalising a base URL for completions is idempotent exactly when the URL ends neither in `/chat` nor
  in `/chat/chat/completions` (`Endpoint.CompletionsIdempotentExactly`).
- A pattern with both a fixed prefix and suffix matches segments in which the two overlap
  (`Routes.PrefixedMatches`, `Routes.OverlapExample`). No pattern of the router's matrix has a prefix.
- The relay answers 502 without any attempt exactly when `MaxRetries` is negative
  (`RelayProperties.NegativeRetries`).
- "Revoked" is not final: a key stays revoked exactly when the status set last revokes it
  (`KeySync.RevokedStaysExactly`, `KeySync.RevokedThenDisabled`). It never becomes active again.

## Model

| member | source | states |
|---|---|---|
| ConfigSync.StepKeepsInv | router/internal/store/provider.go:504-541 | for any number of concurrent reloaders and any writer, each read, transaction, install or failure keeps the invariant that everything held or cached was read at a database version no older than its label |
| ConfigSync.InSyncIsCurrent | router/internal/store/provider.go:504-515 | in every reachable state, torn reads and stale overwrites included, a cache whose label is the current provider version holds exactly the routing list the current database would give |
| ConfigSync.ReadyReflectsProbe | router/internal/app/server.go:62-75 | a ready answer means that both cached tables were read at or after every change committed when the probe read the version |
| ConfigSync.ReadyExactly | router/internal/app/server.go:62-75 | in every run an instance answers ready iff its label has reached the version the probe read: always when its label is current, never before its first install |
| ConfigSync.FailureEndsReload | router/internal/store/provider.go:504-541 | a reload that fails leaves cache, label and other reloads alone, and can be started again |
| ConfigSync.EndedMeansDrained | router/internal/store/provider.go:504-541 | while nothing is written, once every reload in flight at some moment has ended, all later ones hold only current data |
| ConfigSync.Settles | router/internal/store/provider.go:517-541 | after writes stop and each reload then in flight has ended, the next completed poll or reload makes the cache equal to the database and the instance ready, and every later state keeps it so |
| ConfigSync.LabelCanGoBack | router/internal/store/provider.go:504-576 | from any database with one provider there is a run of two overlapping reloads in which an install lowers the label |
| LabelOrder.AloneIsMonotone | router/internal/store/provider.go:504-541 | in every run in which at most one reload is in flight at a time, the label never goes back |
| LabelOrder.MonotoneExactly | router/internal/store/provider.go:504-576 | in every run the label never goes back iff installs come in the order of the versions their reloads read |
| LabelOrder.DropsExactly | router/internal/store/provider.go:504-541 | in every run the label goes back iff one reload read its version before a version-raising write, another read it after that write, and the earlier reader installs later |
| Database.MutationsAnnounce | router/internal/store/platform.go:1015-1039 | every committed mutation raises the provider version by exactly one, and unless it is about a legacy provider the channel version too; only an import that adds no channel leaves everything alone |
| Database.RoutingInOrder | router/internal/store/platform.go:644-657 | the routing list holds the legacy providers and then the projected channels, each part by descending priority and then by ID, with every row of the tables |
| Withdrawal.MutationEffects | router/internal/store/platform.go:597-642 | a committed provider or channel mutation writes the row it was given, or removes or disables the row it names, and no other |
| Withdrawal.OutIsNotSelected | router/internal/store/platform.go:644-657 | when no enabled row is routed under an ID, no request selects it, even from tables read at different moments and with other IDs colliding |
| Withdrawal.WithdrawnIsNotRouted | router/internal/store/provider.go:444-460 | in every run, after a provider or channel is deleted, or disabled by any mutation that can do so, and until a row may have been put back under its ID, no cache whose label has reached the version of that change selects it, however stale the label is by then |
| RoutedIds.MutationsKeepKeys | router/internal/store/platform.go:597-714 | every mutation, the import included, keeps provider and channel IDs unique within their tables |
| RoutedIds.RoutedIdsDistinct | router/internal/store/platform.go:519-546 | the merged routing list has distinct IDs if and only if no legacy ID equals the offset plus a channel ID |
| Collisions.CollisionMisroutes | router/internal/store/provider.go:543-549 | for tables with a colliding provider and channel, a request for a model only the two list is answered by the channel iff that is enabled, capable and not excluded, and by nothing otherwise |
| Collisions.ShadowedIsNoCandidate | router/internal/store/provider.go:543-549 | a legacy provider whose ID a channel shares is never a candidate, for any request |
| Collisions.HarmlessExactly | router/internal/store/platform.go:519-546 | the index offers for every request what a plain scan of the routing list finds eligible iff each legacy provider hidden by a channel serves nothing |
| Collisions.NumberedStays | router/internal/store/provider.go:105-124 | every mutation keeps the IDs of provider and channel rows non-zero and stores no channel ID with a legacy provider |
| Collisions.CacheHarmlessExactly | router/internal/store/platform.go:644-657 | in every run, while the label is current, the cache offers for all requests what a plain scan finds eligible iff no serving provider is hidden in the tables of that moment |
| Collisions.CacheRoutesLikeDatabase | router/internal/store/platform.go:644-657 | in every run, while the label is current and no serving provider is hidden, selecting from the cache succeeds iff a plain scan of the database's current providers and channels finds an eligible one, and selects one of highest priority |
| RoutingCache.Cache.Replace | router/internal/store/provider.go:543-576 | the loops build the index of the given list: every enabled provider posted under each model it lists, each posting list sorted by descending priority, then ID |
| RoutingCache.Cache.SelectForCapability | router/internal/store/provider.go:613-655 | collecting into an array, compacting the top tier in place and sampling selects what the index function selects, errors and panic included |
| RoutingCache.CompactTop | router/internal/store/provider.go:645-651 | the in-place filter over the same backing array leaves exactly the leading-priority candidates, in order |
| RoutingCache.PickWeighted | router/internal/store/provider.go:715-734 | the sampler's loops over the array compute the pick for the given draw, with int64 wrap-around and the panic of a non-positive range |
| RoutingCache.Cache.Models | router/internal/store/provider.go:657-693 | the listing is strictly sorted, one entry per plain model, each with its sorted distinct capabilities |
| RoutingCache.CatalogueMatchesSelection | router/internal/store/provider.go:657-706 | the listing names exactly the non-wildcard models of enabled providers, and a capability is shown with a model iff some provider is eligible for the two |
| RoutingIndex.SelectRefinesScan | router/internal/store/provider.go:613-655 | when the index holds its own row for every provider that serves anything, selection agrees with a plain scan: same errors for the same requests, success iff an eligible provider exists, and the result is an eligible provider of maximum priority |
| RoutingIndex.SelectedIsListed | router/internal/store/provider.go:613-655 | whatever IDs the list repeats, a selected provider is an enabled, not excluded provider of the list |
| RoutingIndex.AnsweredWhenUsable | router/internal/store/provider.go:613-655 | a request gets as far as the sampler iff one of the looked-up IDs is usable |
| RoutingIndex.IdsForKey | router/internal/store/provider.go:708-713 | a lookup finds the ranked postings of the model, or of the wildcard iff no enabled provider lists the model exactly |
| RoutingIndex.LookupInOrder | router/internal/store/provider.go:549-576 | a lookup lists every posting of its key, by descending priority and then by ID |
| RoutingIndex.TierMembers | router/internal/store/provider.go:628-651 | the candidates sampled from are exactly the eligible providers of highest priority |
| RoutingIndex.TierCount | router/internal/store/provider.go:549-560 | a provider stands in its tier once for every mention of the model in its own list |
| RoutingIndex.SelectionShare | router/internal/store/provider.go:613-655 | of as many draws as the tier weighs, below 2^63, exactly weight times mentions select a given provider of the tier |
| RoutingIndex.EvenShare | router/internal/store/provider.go:613-655 | when the stored total of the tier is zero, as for default weights, of as many draws as the tier has places exactly the number of mentions select a given provider |
| RoutingIndex.SelectPanicsExactly | router/internal/store/provider.go:613-655 | a selection panics iff it draws among two or more places whose total weight has its 64th bit set, whatever the draw |
| RoutingIndex.NeverPanics | router/internal/store/provider.go:715-734 | posting lists that each weigh less than 2^63 rule such selections out for every request |
| Targets.SelectedIsCleaned | router/internal/store/provider.go:543-549 | a selected provider has the ID, key, authentication, headers and model mapping of one and the same listed row, and the trimmed base URL, vendor, name, channel type and relay format of that row, which is an eligible one of highest priority when the index holds its own row for every provider that serves anything |
| Targets.StoredIsCleaned | router/internal/store/provider.go:165-189 | creating and saving a provider store the row they are given, with its address and names trimmed and with what it serves unchanged |
| Targets.SavedChannelTarget | router/internal/store/platform.go:463-546 | a saved channel is sent to its own trimmed address, under its own names, headers and authentication, with the secret its trimmed reference stands for |
| Targets.SecretsByReference | router/internal/store/platform.go:548-566 | a reference stands for the environment variable it names or the trimmed contents of the file it names, white space around reference and name aside, and every other one for no secret |
| Targets.KeyIsSentUnder | router/internal/store/provider.go:281-296 | a key goes under the trimmed header or "Authorization", after the prefix given or else, for that header in any casing, after "Bearer " |
| Targets.MappedName | router/internal/store/provider.go:266-271 | a model is asked for under the name it is mapped to when that is not blank, and under its own otherwise |
| Targets.ServedCapabilities | router/internal/store/provider.go:245-264 | a provider that names no capability serves exactly chat and completions, and any other one exactly the capabilities it names, compared in normalised form |
| Targets.CapabilityIgnoresCase | router/internal/store/provider.go:305-307 | casing and surrounding white space do not show in a normalised capability |
| Weighted.PickInterval | router/internal/store/provider.go:715-734 | position i is chosen iff the draw lies in its interval of the cumulative weights; the intervals partition the range and the fallback is unreachable |
| Weighted.Share | router/internal/store/provider.go:715-734 | exactly as many draws below the total land on a set of positions as those positions weigh |
| Weighted.PickEvenly | router/internal/store/provider.go:715-734 | when the stored total is zero, each position has one of as many draws as there are positions |
| Weighted.DrawRangeExact | router/internal/store/provider.go:715-722 | the int total equals the sum of the weights iff that sum is below 2^63 |
| Weighted.PickPanicsExactly | router/internal/store/provider.go:715-734 | the sampler panics iff it has nothing to draw from, or two or more weights whose sum is at least 2^63 modulo 2^64 |
| Weighted.OverflowPanics | router/internal/store/provider.go:715-722 | two weights of 2^62 make every draw panic |
| Text.SplitCSV | router/internal/store/provider.go:323-340 | trimming the whole value first changes nothing: the result is the trimmed non-empty parts of the raw value, in order |
| Text.CompactLoop | router/internal/store/provider.go:356-365 | the loop keeps exactly the trimmed non-empty parts, in order |
| Providers.NormalizeEndpointCapabilities | router/internal/store/provider.go:309-321 | the loop over a seen-set computes the normalised list |
| Providers.NormalizeMembers | router/internal/store/provider.go:309-321 | the result holds exactly the non-empty normalised forms of the values |
| Providers.NormalizeKeepsOrder | router/internal/store/provider.go:309-321 | the result follows the order of first appearance and repeats nothing |
| Providers.NormalizeCapabilitiesIdempotent | router/internal/store/provider.go:305-321 | normalising twice is normalising once |
| Providers.DefaultsKeepService | router/internal/store/provider.go:165-189 | filling in defaults changes neither the model list, nor the capabilities, nor the upstream models, nor whether the provider is enabled |
| Providers.ModelStringFixedExactly | router/internal/store/provider.go:165-189 | the stored model string is a fixed point of the defaults iff no white space stands on the inner side of the outer commas of the trimmed text |
| Providers.ModelStringNotFixed | router/internal/store/provider.go:165-189 | applying the defaults twice to ", a" gives another string than applying them once |
| LegacyImport.Store.ImportLegacyProvidersAsChannels | router/internal/store/platform.go:659-714 | the nested loops commit the imported channels and both version bumps, or roll everything back with the first error; the result counts the new channels |
| LegacyImport.ImportCovers | router/internal/store/platform.go:668-706 | after a successful import every plain model of every provider has its channel, even a model listed twice |
| LegacyImport.ImportIdempotent | router/internal/store/platform.go:659-714 | a second import right after a successful one changes no row and bumps no version |
| LegacyImport.ImportFailsExactly | router/internal/store/platform.go:668-706 | the import fails iff some missing (provider, model) pair gives a channel its save hook rejects |
| LegacyImport.ImportAllAdds | router/internal/store/platform.go:668-706 | every channel the import adds is exactly what it makes, defaults included, of one of the (provider, model) pairs |
| LegacyImport.ImportedChannelProjects | router/internal/store/platform.go:519-546 | projecting an imported channel back keeps model, priority, weight, status, capabilities, headers and, trimmed, address, vendor, name, channel type and relay format; the upstream model up to surrounding space; the authentication prefix iff it was trimmed; and loses the API key |
| LegacyImport.SavedChannelServes | router/internal/store/platform.go:519-546 | a saved channel is routed as a provider of exactly its one model, with its capabilities, sent upstream under its trimmed upstream name if it has one |
| LegacyImport.ImportedSecretIsLost | router/internal/store/platform.go:548-566 | the secret reference the import writes resolves to the empty secret |
| LegacyImport.ReferencesDiffer | router/internal/store/platform.go:680-683 | two providers, the first with a key, get different secret references, written with their decimal IDs |
| ImportedTraffic.ImportedJoinsTier | router/internal/store/platform.go:659-714 | whenever a provider is in the top tier of a request for a model it was imported for, its channel is too, at the same priority and weight and without a key |
| ImportedTraffic.ImportSendsToKeyless | router/internal/store/platform.go:659-714 | an import without collisions gives each provider it makes a channel for a new channel that shares the draws of every request for that model with it, one share for each mention, and has no key |
| Relay.UpstreamBody.Read | router/internal/app/openai.go:362-378 | a read moves a prefix of what is left into the buffer and reports the end only when nothing is left |
| Relay.ResponseCommitTracker.WriteHeader | router/internal/app/openai.go:382-388 | the first status is recorded and sent, later ones change nothing |
| Relay.ResponseCommitTracker.Write | router/internal/app/openai.go:390-400 | the client receives the prefix it has room for, an implied 200 is recorded, and the body counts as committed iff a byte went out |
| Relay.CopyUpstreamResponse | router/internal/app/openai.go:353-380 | for every chunking the client receives the longest prefix it can take, in order, and the copy succeeds iff that is all of an unbroken body; the tracked status is the upstream status |
| Relay.RelayAttemptState.SelectProvider | router/internal/app/openai.go:250-261 | selects outside the attempted set and adds exactly the selected ID to it |
| Relay.RelayOpenAICompatible | router/internal/app/openai.go:138-244 | the loop's log is a complete relay: attempts on successive selections, all but the last answered retryably, then the one exit that fits |
| RelayProperties.RetriedExactly | router/internal/app/openai.go:197-204 | in every relay, whatever is attempted again was answered by a send error, 429 or at least 500; an attempt answered otherwise is the last, and the client gets its status; 429 and statuses from 500 on never reach the client as an upstream's |
| RelayProperties.AttemptsCapable | router/internal/app/openai.go:263-272 | each attempt goes to a provider that serves the endpoint asked for |
| RelayProperties.AttemptsDistinct | router/internal/app/openai.go:250-261 | however the cache is replaced between attempts, no provider ID is attempted twice |
| RelayProperties.OneAnswer | router/internal/app/openai.go:138-244 | every run that was not cut off answers once and reports usage once with the same status, failure iff the status is 400 or more; one that was cut off does neither; and nothing is sent upstream after a status or body byte was committed |
| RelayProperties.AbortsExactly | router/internal/app/openai.go:156-180 | a run is cut off iff it comes, within its bound and after retryable failures only, to a selection whose candidates weigh too much |
| RelayProperties.ExitSettles | router/internal/app/openai.go:156-243 | a run either settles with one response and one usage report or was cut off by a panic of the sampler |
| RelayProperties.ExitReports | router/internal/app/openai.go:156-243 | the usage record names the requested model, its endpoint and the provider attempted last, if any; a failure after attempts reports the error of the last attempt |
| RelayProperties.BodiesReplayed | router/internal/app/openai.go:290-327 | every attempt carries the client's fields with the provider's own model name and without the group, whatever was attempted before |
| RelayProperties.SteadyFailureRun | router/internal/app/openai.go:156-243 | with a steady cache and only retryable failures there are exactly min(MaxRetries+1, eligible) attempts, on distinct providers, each of highest priority among the rest; 503 iff nothing was eligible, else 502 |
| RelayProperties.NotFoundExactly | router/internal/app/openai.go:158-187 | the answer is 503 iff an attempt was allowed and the first selection found no eligible provider |
| RelayProperties.NegativeRetries | router/internal/app/openai.go:156-243 | the relay answers 502 with no attempt and no error to report iff the number of retries is negative |
| RelayProperties.AnsweredUnattempted | router/internal/app/openai.go:156-243 | without an attempt the answer is 502 for a negative number of retries and 503 otherwise |
| Pricing.Matches | router/internal/store/platform.go:960-993 | adding up the score condition by condition agrees with the score function, and a row is rejected iff it names another account, channel, model, class or cache state than the query |
| Pricing.ResolvePrice | router/internal/store/platform.go:920-958 | the scan over effective rows, newest first, returns the resolved price |
| Pricing.ScanIsBest | router/internal/store/platform.go:944-957 | the scan finds a matching row that no other matching row beats by score, then time, then ID, and nothing iff none matches |
| Pricing.ScoreIsLexicographic | router/internal/store/platform.go:960-993 | on saved rows the order by additive score is the lexicographic order by account, channel, model and cache specificity, then time, then ID |
| Pricing.ScoreAdmits | router/internal/store/platform.go:960-993 | an effective row has a score for a query iff its account is open or the query's own non-zero account, and its channel, model, class and cache state are each open or equal to those of the query |
| Pricing.ResolvedPrecedes | router/internal/store/platform.go:920-993 | the resolved price is a row that admits the query by its terms and is effective, and precedes every other such row lexicographically; there is none iff there is no such row |
| Pricing.SavedRowKeeps | router/internal/store/platform.go:744-761 | a saved price keeps its account, channel and unit price; its model, class, cache state and currency are trimmed, with their defaults |
| Pricing.AddingARow | router/internal/store/platform.go:920-993 | inserting a row leaves the answer unchanged or becomes the answer |
| Pricing.UnsavedRowsTie | router/internal/store/platform.go:960-993 | without the save hook a newer general row beats an older more specific one |
| Ledger.Store.CreateUsageEvent | router/internal/store/platform.go:851-868 | rejects an empty event ID; otherwise the event is inserted unless its ID is recorded, and the recorded event is returned |
| Ledger.Store.CreateBillableChargeForEvent | router/internal/store/platform.go:870-909 | inserts the charge priced for the event unless the event has one, and returns the recorded charge |
| Ledger.SavedEventKeeps | router/internal/store/platform.go:797-821 | a recorded event keeps its account, key, provider, channel, statuses and error code; its texts are trimmed, with their defaults |
| Ledger.SavedEventTwice | router/internal/store/platform.go:797-821 | filling in the defaults of an event twice, before and in the create hook, is filling them in once |
| Ledger.StepKeepsInv | router/internal/app/usage.go:56-89 | every step of every worker, retry, crash or price insertion keeps the ledger sound and only appends to it |
| LedgerRuns.BooksAreSound | router/internal/store/platform.go:851-909 | in every run there is one event per identifier and one charge per event, and each charge is what its event earned from the price rows of some moment between the writing of the two |
| LedgerRuns.RunKeepsPrices | router/internal/store/platform.go:739-761 | in every run each price row names its usage class and has an ID of its own |
| LedgerRuns.ChargesAreOwed | router/internal/app/usage.go:82-89 | in every run, for each charge, at some moment between the writing of its event and its own, it takes its terms from the lexicographically first of the effective price rows that name no other account, channel, model, class or cache state than its event, and is unpriced, at zero US dollars, iff there was none |
| LedgerRuns.NoRowOverlooked | router/internal/app/usage.go:82-89 | no charge of an event overlooks a price row that stood when the event was written |
| LedgerRuns.LaterRowsOnly | router/internal/store/platform.go:920-993 | in every run a price row added later leaves the answer to any query alone or becomes it |
| LedgerRuns.EarnedAgrees | router/internal/store/platform.go:879-899 | an earned charge agrees with its event on account, key, units, class and cache state, takes price, currency and unit price from the row resolved for that event, and its amount is unit price times units iff that product fits an int64 |
| LedgerRuns.ChargesNeverChange | router/internal/store/platform.go:851-909 | events and charges keep their place and contents for ever, and a worker that finished has left a charge |
| Ledger.RecordingIsIdempotent | router/internal/store/platform.go:851-909 | recording the same event or a second charge for it changes nothing |
| Usage.SanitizeRequestID | router/internal/app/usage.go:110-122 | the loop keeps exactly the safe characters of the trimmed value, in order, or answers "request" when there are none |
| Usage.SafeAlphabet | router/internal/app/usage.go:113-116 | a character is kept iff it is an ASCII letter, a digit, a dash, an underscore or a colon |
| Usage.SafeCharsConcat | router/internal/app/usage.go:113-116 | what is kept of a text is what is kept of its parts, in order |
| Usage.SanitizedTwice | router/internal/app/usage.go:110-122 | sanitising is idempotent and its result is safe and never empty |
| Usage.EventIDInjective | router/internal/app/usage.go:57 | event IDs are equal iff token and sanitised endpoint are |
| Usage.RecordRelayUsage | router/internal/app/usage.go:26-90 | without an account key nothing is written; otherwise the event of the request and then the charge its stored event earns, or only the part before a failing write |
| Usage.RecordedIsSound | router/internal/app/usage.go:56-89 | a recording keeps the ledger sound, only appends, and leaves an event under the identifier of the request with a charge for it |
| Usage.FirstRecordingCharges | router/internal/app/usage.go:56-89 | the first recording under an identifier leaves an event of the caller's account and key and a charge of one request unit to the same account and key |
| Usage.FirstRecording | router/internal/app/usage.go:56-89 | the first recording under an identifier appends exactly one event and its charge, priced from the rows of that moment, and nothing else |
| Usage.RetryCompletes | router/internal/app/usage.go:56-89 | a retry under the same identifier, after a crash between the writes or after success, ends with the books of one undisturbed recording, whatever else it reports |
| Billing.RelayReports | router/internal/app/openai.go:138-244 | every relay that was not cut off hands over exactly one record, which agrees with the answer, the error code and the upstream status behind what the client got and names the model, the endpoint and the provider attempted last |
| Billing.RelayIsBilledExactly | router/internal/app/usage.go:26-90 | such a relay by an accountable caller leaves nothing iff the client could not take its whole response or the event write fails; otherwise one event, with the status, error code and cache state the client was told and the ID of the provider attempted last, and no charge iff the charge write fails; and otherwise one event and one charge, priced for the caller, the model, that cache state and the platform channel of the provider attempted last |
| Billing.LostClientExactly | router/internal/app/openai.go:205-218 | a client is lost iff a response was forwarded that it could not take whole, and it then got the upstream's status and the part it could take |
| Billing.RelayAndRecord | router/internal/app/openai.go:205-235 | relaying and then recording under the request's context leaves the books as its log, the lost client and the failing write decide; a lost client leaves them unchanged |
| ApiKeys.NewKeyOpens | router/internal/store/platform.go:116-138 | a created key names its account and is opened by its own secret text, up to surrounding space, under the same hash secret, and by nothing else |
| ApiKeys.ValidateAPIKeyCandidates | router/internal/store/platform.go:324-345 | the loop answers as a full scan of its candidates: the identity of a matching active key, "required" for blank text, "invalid" iff nothing matches |
| ApiKeys.ApiKeyPrefix | router/internal/store/platform.go:307-316 | the longest prefix of the trimmed key of at most 12 characters |
| ApiKeys.BucketScan | router/internal/store/platform.go:254-261 | looking only at the active keys under the presented prefix finds the row a scan of all keys finds first |
| ApiKeys.APIKeyCache.Replace | router/internal/store/platform.go:397-409 | the loop groups exactly the active keys by prefix, in order |
| ApiKeys.APIKeyCache.Validate | router/internal/store/platform.go:411-420 | answers as a full scan of all the keys it was loaded with |
| ApiKeys.ValidateAPIKey | router/internal/store/platform.go:225-235 | the prefix query answers as a full scan of the table, in whatever order, and however coarsely, it returns its rows |
| ApiKeys.AnswerUnique | router/internal/store/platform.go:324-345 | with distinct secrets there is one right answer for every presented text |
| ApiKeys.AuthenticatePublicRequest | router/internal/app/server.go:132-153 | the static key is tried first, then the cache once it is loaded, then the store; each source gives the answer due for the keys it consults, and the remaining errors occur only when none can be consulted |
| ApiKeys.AdmitsExactly | router/internal/app/server.go:132-153 | a request enters iff no authentication is configured, it presents the static key, or its text opens an active key |
| ApiKeys.SourcesAgree | router/internal/app/server.go:132-153 | cache and database tell a request the same when they hold the same keys |
| ApiKeys.BearerWins | router/internal/app/server.go:99-115 | a bearer token is taken as its trimmed text in any casing of the scheme, before the x-api-key header |
| KeySync.StepKeepsInv | router/internal/store/platform.go:358-395 | creations, status changes and every read and install of the single loader keep the invariant, and neither label, cached snapshot nor history runs backwards |
| KeySync.NoReactivation | router/internal/store/platform.go:176-223 | in no run does a disabled or revoked key become active again or change its secret |
| KeySync.StatusIsLastSet | router/internal/store/platform.go:184-223 | in every run the status of a key is the one set last, or the one it had |
| KeySync.RevokedStaysExactly | router/internal/store/platform.go:176-223 | a revoked key is still revoked iff the status set last since, if any, revokes it |
| KeySync.RevokedThenDisabled | router/internal/store/platform.go:176-223 | disabling a revoked key makes it "disabled" |
| KeySync.LabelNeverDrops | router/cmd/router/main.go:38-53 | the label of the key cache never decreases along a run |
| KeySync.RevocationSticks | router/internal/store/platform.go:358-420 | once a snapshot read at or after a revocation is cached, validation refuses that secret there and in every later state |
| KeySync.ReadySeesRevocations | router/internal/app/server.go:76-91 | when the probe finds the key cache ready, every key inactive at the version it read is refused from then on |
| KeySync.KeysReadyExactly | router/internal/app/server.go:76-91 | in every run the key cache is found ready iff its label has reached the version probed, and never before its first install |
| KeySync.FailureEndsLoad | router/internal/store/platform.go:371-395 | a load that fails leaves cache and label alone, and the next poll can start |
| KeySync.PathsAgree | router/internal/store/platform.go:225-261 | while the label equals the key version, cache and database give every presented text the same outcome |
| KeySync.PollCatchesUp | router/internal/store/platform.go:371-395 | one uninterrupted poll of an idle instance brings the cache up to the current version and keys |
| KeySync.StaysCaughtUp | router/internal/store/platform.go:371-395 | without writes a caught-up cache stays so through every step |
| Routes.EscapeRoundTrip | router/internal/app/routes.go:241-248 | decoding undoes escaping of any string, and an escaped string fits one segment |
| Routes.UnescapeShortens | router/internal/app/routes.go:241-248 | decoding leaves a string without percent signs as it is and shortens every other one |
| Routes.HexDigits | router/internal/app/routes.go:241-248 | hexadecimal digits of either casing are decoded to the same value, and nothing else is |
| Routes.SplitRoutePathJoined | router/internal/app/routes.go:253-259 | splitting undoes joining, with or without a slash at the end |
| Routes.JoinSplit | router/internal/app/routes.go:253-259 | joining undoes splitting |
| Routes.ParamMatches | router/internal/app/routes.go:261-279 | without a fixed prefix a parameter binds v iff the segment is v followed by the suffix and v is not empty |
| Routes.PrefixedMatches | router/internal/app/routes.go:261-279 | with prefix and suffix it matches iff both are present and more than one of them fills the segment; the value rebuilds the segment iff the two do not overlap |
| Routes.NamelessMatchesNothing | router/internal/app/routes.go:261-279 | a pattern without a name between its braces matches no segment |
| Routes.OverlapExample | router/internal/app/routes.go:261-279 | the pattern `ab{x}bc` matches the segment `abc` with value `c` |
| Routes.MatchRoutePath | router/internal/app/routes.go:229-251 | the loop collects the decoded parameters, later names replacing earlier ones, and fails at the first mismatch |
| Routes.MatchesPointwise | router/internal/app/routes.go:229-251 | a path matches iff it has as many segments and each one matches, its value being decodable |
| Routes.RelayRoute | router/internal/app/routes.go:123-145 | the first row with the method and a matching pattern handles the request; otherwise 405 with an Allow list of exactly the sorted distinct methods of the matching patterns, or 404 when no pattern matches |
| Routes.WriteMethodNotAllowed | router/internal/app/routes.go:186-199 | every method of the matched rows once, in order |
| Routes.AnswerKinds | router/internal/app/routes.go:123-145 | 404 iff no pattern matches, handled iff a row with the method matches |
| Routes.OrderIrrelevant | router/internal/app/routes.go:123-145 | reordering an unambiguous matrix changes no answer |
| RouteMatrix.RowHits | router/internal/app/routes.go:42-110 | each row of the matrix matches iff every fixed segment is equal and every parameter segment is a non-empty decodable value followed by its suffix |
| RouteMatrix.MatrixUnambiguous | router/internal/app/routes.go:42-110 | for every method and path at most one of the 23 rows matches |
| ServedRoutes.RelaysServed | router/internal/app/routes.go:42-60 | `POST /v1/chat/completions` and `POST /v1/completions` are handled, each as the relay of its own capability |
| ServedRoutes.ListingsServed | router/internal/app/routes.go:61-92 | the three listing paths are handled as metadata |
| ServedRoutes.TextRoutesServed | router/internal/app/routes.go:93-102 | responses, embeddings, rerank and messages are recognised, each under its capability, and answered as not implemented |
| ServedRoutes.ImageRoutesServed | router/internal/app/routes.go:96-97 | so are both image paths |
| ServedRoutes.AudioRoutesServed | router/internal/app/routes.go:98-100 | and the three audio paths |
| ServedRoutes.TaskRoutesServed | router/internal/app/routes.go:105-109 | and the realtime path and both paths that start a video |
| ServedRoutes.ParamRoutesServed | router/internal/app/routes.go:69-76 | for every decodable value of one segment, the model path is handled as metadata and both task paths as not implemented, with the decoded value as parameter |
| ServedRoutes.GenerateRoutesServed | router/internal/app/routes.go:103-104 | for every decodable value before either suffix, both generation paths are recognised with that value as the model |
| ModelPaths.DecodedAgain | router/internal/app/routes.go:229-251 | GET for a name of one segment is answered for the name decoded once more, or not at all when its percent signs spell no escape |
| ModelPaths.NamedExactly | router/internal/app/routes.go:123-145 | a model path as the router sees it is answered with the metadata of that very name iff the name holds neither a slash nor a percent sign |
| ModelRequests.ModelReachedExactly | router/internal/app/server.go:44-55 | behind the server and its multiplexer, a GET whose target's path decodes to that of a model reaches its metadata, however it is escaped, iff the target can be sent, the name holds neither a slash nor a percent sign and, for the two dot names, the path that is matched has no bare dot segment |
| ModelRequests.CleanUnlessDots | router/internal/app/server.go:44-55 | only the two dot names can be redirected |
| ModelRequests.EscapedOnceExactly | router/internal/app/routes.go:69-76 | escaped once, a name is reached iff it holds neither a slash nor a percent sign and is neither "." nor ".." |
| ModelRequests.EscapedTwiceExactly | router/internal/app/routes.go:229-251 | escaped twice, a name is reached iff it is neither "." nor ".." |
| ModelRequests.EscapedDots | router/internal/app/routes.go:229-251 | the two dot names are reached with their dots escaped |
| ModelRequests.RawNames | router/internal/app/routes.go:229-251 | sent raw, `a?b` is answered as `a`, and a name with a space is refused |
| ModelRequests.MissedNames | router/internal/app/routes.go:229-251 | escaped once, `a/b` and `50%` are not found, `%41` is answered as `A`, and `..` is redirected |
| Endpoint.ByRoot | router/internal/upstream/client.go:107-126 | both endpoints put their own ending after one and the same root of the base URL, which has no leading space |
| Endpoint.EndpointForms | router/internal/upstream/client.go:107-126 | a base URL that names no endpoint, with or without a slash or the name of either endpoint after it, is normalised to itself followed by the name of the endpoint asked for |
| Endpoint.ChatIdempotent | router/internal/upstream/client.go:107-126 | normalising for chat twice is normalising once, for every base URL |
| Endpoint.CompletionsAfterChat | router/internal/upstream/client.go:107-126 | normalising for completions after chat is normalising for completions directly, for every base URL |
| Endpoint.CompletionsIdempotentExactly | router/internal/upstream/client.go:107-126 | normalising for completions is idempotent, and harmless before normalising for chat, iff the trimmed URL ends neither in "/chat" nor in "/chat/chat/completions" |

## Left out

- Text is sequences of code points: the 12-byte key prefix is cut at 12 characters, `PathUnescape` yields code points instead of bytes, and case is folded for ASCII letters only.
- IDs are unbounded: the sum of the channel offset and a channel ID does not wrap around.
- Timestamps are integers and `lastSyncedAt` is not kept; logging, metrics and `Stats` have no model.
- `GroupList` and the `groups` field, which selection does not use.
- `PickAPIKey` and its random choice among several keys: upstream calls are an oracle.
- JSON, HTTP headers, flushing and hop-by-hop headers; the copy path of a writer without flush support; path cleaning by the standard library's multiplexer for paths other than those of one model.
- The provider-version response header, which is read after selection under its own lock and need not be the version selected from.
- SQL dialects, collations and migrations: transactions are atomic and each query reads one committed state. Rows written around the router, and missing version rows, are outside the model.
- Save hooks run once per save. Disabling a channel is modelled without its hook: the router updates through an empty row, whose hook refuses it with "provider is required"; if the mapping library runs the hook on that update, the call never commits.
- Environment and file secrets are one fixed function of the reference.
- Database transactions of `ConfigSync` and `KeySync` are steps on values, not methods of a class; the import and the ledger are also given as methods that change a store.
- Event fields that no property mentions (start time, duration, request ID), and the time a charge was written.
- Reading the cache state from the headers of a response: the state is given with the response.
- Account and admin handlers: only the reload they trigger appears, as another reloader.
- A process that exits because its first load fails: the model lets it stay idle, which adds behaviours.
