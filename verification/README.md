# A Dafny model of the Solace exporter's caches, loops and encodings

The exporter scrapes Solace brokers over SEMP and shows the results to Prometheus. Around the scraping sit a few small
concurrent caches and loops whose guarantees hold over all interleavings, and a few text encodings those caches rely on.
This project models them and proves those guarantees. `dafny verify dfyconfig.toml` checks everything.

## How it is built

A protocol is a state machine: a `State`, an `Action` type, and a function (`Act`, or `Step` for the channel) that gives
the state after one atomic action or `None` where the action cannot happen. `Run` and `Acts` perform a list of actions,
so a lemma about every list is a lemma about every interleaving. Scheduling, the clock, the network and the order in
which Go visits a map are the caller's free choice of actions or arguments.

Code that updates objects or variables is imperative: classes with the source's fields, and methods with its loops, each
proved against a function of the old state. The lemmas are then about those functions, and `AloneIsARun` (twice) and
`PrefetchEqualsSync` connect the machines to the methods.

| file | what it models |
|---|---|
| `Text.dfy` | the parts of Go's `strings` package that are relied on |
| `Metric.dfy` | descriptors, metrics, and the text that is their map key |
| `Channel.dfy` | the 1000-slot channel between one producer and one consumer |
| `PrefetchCache.dfy`, `PrefetchRuns.dfy` | mark, merge and sweep of the prefetch map; refreshes and scrapes interleaved |
| `FetchWorkers.dfy` | the workers of all handlers sharing one semaphore |
| `SecretResolver.dfy`, `SecretRuns.dfy` | the secret cache; any number of concurrent `Resolve` calls |
| `OAuthToken.dfy`, `OAuthRuns.dfy` | the token cache shared by all clones; any number of concurrent callers |
| `Paging.dfy`, `QueueStats.dfy` | paged replies with boundary de-duplication; the SEMP v1 queue getter |
| `FieldSelection.dfy` | metric filters, field selection and the SEMP v2 queue getter |
| `Ownership.dfy` | the tool that groups endpoints by owner |
| `UpStream.dfy` | dispatch by target name and the stream of `up` metrics |
| `VaultRenewal.dfy` | token renewal, backoff, jitter, and the TTL given to a secret |
| `VersionNumber.dfy`, `IssuerFrame.dfy`, `DataSources.dfy` | the version number, the issuer-prefixed token, data sources as text |

## What turned out not to hold, and exactly when it does

- `Resolve` does not bound the backend reads per TTL window, and a slow waiter can put an older value back over a newer
  one (`SecretRuns.TwoReadsInOneWindow`, for every reference and positive TTL). A shared call reads exactly when the
  latest *store* under its reference is no longer alive (`SecretRuns.ReadStartsIffNotLive`). Starting a shared call
  cannot make a later store go back if and only if nobody has an earlier read still to store
  (`SecretRuns.StartIsSafeIff`); runs that keep to this never go back (`SecretRuns.StoresStayInOrder`).
- The TTL runs from the store by a waiter, not from the backend's reply, so a hit may be older than its TTL by any delay
  of that waiter (`SecretRuns.HitOlderThanItsTtl`). It happens if and only if the value was stored later than the reply
  came (`SecretRuns.HitOutlivesReplyIff`).
- Label values are not escaped in the metric's map key. Over all values the key identifies a series if and only if its
  descriptor has at most one label (`Metrics.KeyIdentifiesIffOneLabel`); without quotes in the values it always does
  (`Metrics.NameInjective`).
- The paging key `vpn___name` does not determine the endpoint. Skipping by key is skipping by endpoint if and only if no
  two neighbouring items are different endpoints with one key (`Paging.KeyDedupIsExactIff`), and which VPN names allow
  that is known exactly (`Paging.VpnsCollideIff`).
- The SEMP v2 table has no row for `solace_queue_msg_spooled`: a filter that names only that metric is accepted and
  yields no metric at all (`FieldSelection.SpooledCountAloneYieldsNothing`); every other statistic is sent if and only
  if the filter is empty or spells it (`FieldSelection.SentIffSpelled`).
- A data source survives printing and parsing if and only if it is `Printable` (`DataSources.RoundTripIff`).
- A version component of four digits spills into its neighbour (`VersionNumber.FourDigitsCollide`). Packed versions are
  told apart, and ordered, if and only if no component after the first may be wider than three digits
  (`VersionNumber.PackingOrdersIff`).
- After a successful renewal the next try comes by half of the lease if and only if the lease is at least ten seconds
  (`VaultRenewal.RenewsByHalfLeaseIff`); the TTL of a leased secret is half its lease if and only if the lease is at most
  9,223,372,036 seconds, because the conversion to 64-bit nanoseconds wraps (`VaultRenewal.SecretTtlIsHalfLeaseIff`).
- The SEMP v1 getter reports -1 for a failed request, which stops the whole scrape; the v2 getter reports 0, which does
  not (`QueueStats.GetQueueStatsSemp1`, `FieldSelection.GetQueueStatsSemp2`).

## Model

| member | source | states |
|---|---|---|
| `SecretResolver.ParseIsExact` | internal/secret/resolver.go:81-89 | references and path/field pairs correspond one to one: a configured text is a reference exactly when it is the prefix, a non-empty path without `#`, a `#` and a non-empty field |
| `SecretResolver.Resolver.CacheGet` | internal/secret/resolver.go:141-153 | an entry is served up to and including its expiry; a later lookup finds nothing and evicts just that entry |
| `SecretResolver.Resolver.CacheSet` | internal/secret/resolver.go:155-163 | a positive TTL sets value and expiry; any other removes the entry; other references keep theirs |
| `SecretResolver.Resolver.Resolve` | internal/secret/resolver.go:80-139 | the whole of one undisturbed call: its result and the cache it leaves, for literals, malformed references, hits, no backend, replies and failures |
| `SecretRuns.RunKeeps` | internal/secret/resolver.go:80-163 | every run keeps the invariant tying cache, shared calls, callers and the history of replies and stores together |
| `SecretRuns.OneReadInFlight` | internal/secret/resolver.go:106-124 | in every reachable state at most one unfinished shared call per reference exists, so at most one backend read |
| `SecretRuns.ValuesComeFromTheBackend` | internal/secret/resolver.go:91-138 | every value returned or held for a reference was returned by the backend for that very path and field |
| `SecretRuns.HitIffLive` | internal/secret/resolver.go:141-163 | a lookup finds a value exactly while the latest store under the reference lives, and it is that store's value |
| `SecretRuns.ReadStartsIffNotLive` | internal/secret/resolver.go:106-119 | after its re-check a shared call goes to the backend exactly when the latest store under its reference is not alive |
| `SecretRuns.HitsAreFresh` | internal/secret/resolver.go:91-112 | every value served from the cache, to a caller or inside a shared call, was stored at most its positive TTL earlier, and not before the backend replied |
| `SecretRuns.OnlyStoresMoveExpiries` | internal/secret/resolver.go:106-163 | over any run without a store no entry appears and no value or expiry changes, whatever lookups and re-checks happen |
| `SecretRuns.NothingHeldWithoutTtl` | internal/secret/resolver.go:155-161 | if no reply had a positive TTL the cache is empty in every reachable state |
| `SecretRuns.WaitersAgree` | internal/secret/resolver.go:99-138 | callers that waited for the same shared call had the same reference and get the same result |
| `SecretRuns.CancelPossibleIff` | internal/secret/resolver.go:126-128 | a caller can give up exactly while it waits, whatever its shared call is doing, and that changes nothing but its own outcome |
| `SecretRuns.EnterAndTickPossibleIff` | internal/secret/resolver.go:80 | a new caller can come, and time can pass, in every state |
| `SecretRuns.CancelIsInvisible` | internal/secret/resolver.go:113-128 | every waiting caller can give up, and compared with leaving it waiting that changes nothing others can do afterwards, nor their outcomes, nor the cache; the store that the caller itself would have made is forgone |
| `SecretRuns.TwoReadsInOneWindow` | internal/secret/resolver.go:126-138 | for every reference and positive TTL there is a run with two reads at one instant whose older value ends up cached |
| `SecretRuns.StoresStayInOrder` | internal/secret/resolver.go:106-138 | over every run that starts a shared call for a reference only when nobody has an earlier read of it still to store, no store under the reference goes back to an older read |
| `SecretRuns.StartIsSafeIff` | internal/secret/resolver.go:106-138 | that condition is exact: from every reachable state with its stores in order, whatever follows a newly started call without another one keeps them in order if and only if nobody had an earlier read still to store |
| `SecretRuns.CallerCanReturn` | internal/secret/resolver.go:80-139 | nobody is ever stuck: every caller can be brought to its return by at most seven actions of its own, its call and the backend, whatever the backend answers |
| `SecretRuns.HitOutlivesReplyIff` | internal/secret/resolver.go:126-138 | in every reachable state a live entry can still be served past its TTL, counted from the backend's reply, if and only if it was stored later than the reply came |
| `SecretRuns.AloneIsARun` | internal/secret/resolver.go:80-139 | from every reachable state with no call in flight for the reference, the machine can run one caller to the result and cache of the method `Resolve` |
| `Channel.RunKeeps` | internal/exporter/exporter.collect.go:206-227 | over every run received plus buffered is sent, the buffer never exceeds 1000, close follows the end of the producer, nothing is sent after close, and the number of actions is bounded |
| `Channel.NeverStuck` | internal/exporter/exporter.collect.go:211-252 | until the consumer has drained a closed channel, one side can act, and not by panicking |
| `Channel.MaximalRunDelivers` | internal/exporter/exporter.collect.go:211-252 | a run that cannot go on has delivered exactly what was sent: all of it if the producer returned, else a prefix |
| `Channel.ReachedIff` | internal/exporter/exporter.collect.go:206-252 | a state of the channel can come about if and only if what was sent is received or buffered in order, at most 1000 of it buffered, the producer returned only after sending everything or panicked anywhere, and the close follows its end |
| `PrefetchCache.LastWinsAt` | internal/exporter/asyncFetcher.go:133-139 | merging keeps every name that occurs, with the last metric of that name |
| `PrefetchCache.LastWinsOnly` | internal/exporter/asyncFetcher.go:133-139 | and it keeps nothing else |
| `PrefetchCache.LastWinsConcat` | internal/exporter/asyncFetcher.go:92-103 | a stream merged in two parts is the stream merged whole, so chunking does not show |
| `PrefetchCache.MarkIsInvisible` | internal/exporter/asyncFetcher.go:111-131 | the scrapes of a marked map, before and after any merge, are exactly the scrapes of the unmarked one |
| `PrefetchCache.SweepAfterMark` | internal/exporter/asyncFetcher.go:124-149 | the sweep removes exactly the entries no merge has replaced since the marking |
| `PrefetchCache.AsyncFetcher.DeprecateAll` | internal/exporter/asyncFetcher.go:124-131 | in any iteration order every entry ends up marked, otherwise unchanged |
| `PrefetchCache.AsyncFetcher.Merge` | internal/exporter/asyncFetcher.go:133-139 | the map is overridden by the last metric per name of the chunk |
| `PrefetchCache.AsyncFetcher.DeleteDeprecated` | internal/exporter/asyncFetcher.go:141-149 | in any iteration order exactly the marked entries go |
| `PrefetchCache.AsyncFetcher.Collect` | internal/exporter/asyncFetcher.go:111-122 | a scrape shows each entry once, with the entry's own descriptor, type, value and labels, and nothing else, in an order not chosen |
| `PrefetchCache.AsyncFetcher.ReadMetrics` | internal/exporter/asyncFetcher.go:76-105 | from any map, one refresh in chunks of 100 ends with exactly the last metric per name of the stream received |
| `PrefetchCache.CollectSync` | internal/exporter/exporter.collect.go:237-251 | the synchronous collector lists exactly the last metric per name of its stream, each with its own descriptor, type, value and labels |
| `PrefetchCache.ListingsAgree` | internal/exporter/exporter.collect.go:243-245 | any two listings of one map are permutations of each other |
| `PrefetchCache.NoSeriesTwice` | internal/exporter/asyncFetcher.go:111-122 | no scrape shows a name with the same labels and values twice |
| `PrefetchCache.SeriesKept` | internal/exporter/asyncFetcher.go:133-139 | for plain names and quote-free values the map keeps the last metric of every series |
| `PrefetchCache.SeriesApart` | internal/exporter/asyncFetcher.go:133-139 | it keeps nothing else and merges no two series: entries under different keys belong to different series |
| `PrefetchRuns.EveryScrapeIsExact` | internal/exporter/asyncFetcher.go:76-149 | in every reachable state a scrape lists, sample by sample, the old contents overridden by the last metrics of the merged prefix, a multiple of 100 metrics or everything sent, or, after the sweep, exactly the last metric per name |
| `PrefetchRuns.EverySampleIsCurrent` | internal/exporter/asyncFetcher.go:76-149 | each sample of such a scrape shows the last metric of its name in the merged prefix, or an old entry whose name is not in it |
| `PrefetchRuns.NoGapIffDelivered` | internal/exporter/asyncFetcher.go:76-149 | over any number of interleaved refreshes a series is missing from no scrape if and only if every completed refresh received it |
| `PrefetchRuns.PrefixOnlyGrows` | internal/exporter/asyncFetcher.go:92-103 | until the next refresh begins, the merged prefix and the received stream only grow, over the same old contents |
| `PrefetchRuns.RefreshAdvances` | internal/exporter/asyncFetcher.go:76-105 | a refresh can always go on without a panic, and every action but a scrape brings its end nearer |
| `PrefetchRuns.PossibleIff` | internal/exporter/asyncFetcher.go:76-122 | exactly when a refresh can begin, the producer can go on or panic, a metric can be taken and a chunk merged; a scrape is possible at any time and changes nothing |
| `PrefetchRuns.PrefetchEqualsSync` | internal/exporter/asyncFetcher.go:76-105 | after any completed refresh, panicked producer or not, prefetched and synchronous scrapes of what the producer sent show the same samples, and no mark is left |
| `FetchWorkers.Capacity` | internal/exporter/config.struct.go:255-257 | a configured number of connections of at least one is kept, any other becomes two |
| `FetchWorkers.PermitsAreHolders` | internal/exporter/asyncFetcher.go:35-51 | in every reachable state the permits out are exactly the workers between acquire and release, at most the capacity; no release exceeds what is held |
| `FetchWorkers.NobodyHoldsTwo` | internal/exporter/asyncFetcher.go:35-59 | over every run a worker's grants exceed its releases by one while it holds a permit and by none otherwise |
| `FetchWorkers.PermitComesBack` | internal/exporter/asyncFetcher.go:49-51 | a worker with a permit can give it back by its own actions alone, in a bounded number, also when its producer has panicked |
| `FetchWorkers.WaiterCanBeGranted` | internal/exporter/asyncFetcher.go:35-51 | whoever waits can be granted a permit at once or after one other worker has given its own back, by its own actions and in a bounded number of them |
| `FetchWorkers.PossibleIff` | internal/exporter/asyncFetcher.go:35-59 | exactly when a worker can be granted a permit, be refused, fetch, try again or stop |
| `OAuthToken.Config.Clone` | internal/exporter/config.struct.go:77-82 | a clone is a new object that shares the token cache |
| `OAuthToken.Config.GetOAuthToken` | internal/exporter/auth.go:53-94 | the whole of one undisturbed call: result and cache for no cache, a token fresh at either check, a granted token, a refusal |
| `OAuthRuns.FetchOnlyWhenStale` | internal/exporter/auth.go:67-85 | a request to the provider is made alone under the write lock and was decided on when the cached token was missing or within 5 minutes of its expiry |
| `OAuthRuns.ReturnedTokensAreGood` | internal/exporter/auth.go:59-93 | every token handed out was granted, and was fetched by that caller or had more than 5 minutes left when checked |
| `OAuthRuns.OnlyGrantsChangeTheCache` | internal/exporter/auth.go:85-91 | over any run without a grant, refusals included, token and expiry stay |
| `OAuthRuns.NoNeedlessFetch` | internal/exporter/auth.go:70-91 | of all grants only the latest can be fresh now, and while one is fresh nobody is fetching |
| `OAuthRuns.OneFetchPerFreshToken` | internal/exporter/auth.go:50-94 | while the first token stays outside the margin exactly one fetch has succeeded |
| `OAuthRuns.SomebodyCanMove` | internal/exporter/auth.go:59-93 | the locks never deadlock: while a caller is unfinished, one can move or waits for the provider |
| `OAuthRuns.MovesIff` | internal/exporter/auth.go:59-94 | exactly who can move, in every state that keeps the invariant of all runs: readers share the cache, a writer has it alone, and the provider may answer whoever waits for it |
| `OAuthRuns.AloneIsARun` | internal/exporter/auth.go:53-94 | from every reachable state with both locks free, the machine can run one caller to the outcome and cache of the method `GetOAuthToken` |
| `Metrics.ComputeName` | internal/semp/prometheusMetric.struct.go:55-66 | the loop over the labels builds the key text that the lemmas are about |
| `Metrics.NameInjective` | internal/semp/prometheusMetric.struct.go:55-66 | without quotes in values, `{` in names and `=` in labels, two metrics share a key if and only if name, labels and values agree |
| `Metrics.KeyIdentifiesIffOneLabel` | internal/semp/prometheusMetric.struct.go:60-65 | over all values the key identifies the series of a descriptor if and only if it has at most one label |
| `Metrics.QuoteShift` | internal/semp/prometheusMetric.struct.go:60-65 | why: a quote in a value can pose as its end, so a piece of text may sit in either of two neighbouring labels |
| `Paging.PagingIsInvisible` | internal/semp/getQueueStatsSemp1.go:54-107 | however a list is cut into pages, with or without repeating the boundary item, what is kept is what the uncut list keeps |
| `Paging.KeptIsKeptAfter` | internal/semp/getQueueStatsSemp1.go:85-90 | carrying the last key from item to item drops exactly the items whose predecessor has the same key |
| `Paging.FailureKeepsEarlierPages` | internal/semp/getQueueStatsSemp1.go:59-80 | a failure at page k leaves exactly the items of the pages before it, and is what the conversation ends with |
| `QueueStats.FailureKeepsEarlierMetrics` | internal/semp/getQueueStatsSemp1.go:54-109 | the metrics sent before a failure at page k are exactly those of the pages before it, and every conversation that goes on from those pages begins with them |
| `Paging.KeptHasAllKeys` | internal/semp/getQueueStatsSemp1.go:85-90 | nothing is lost: the kept items have the keys of all items |
| `Paging.ContiguousKeysKeptOnce` | internal/semp/getQueueStatsSemp1.go:85-90 | when equal keys stand together, each key is kept exactly once |
| `Paging.KeyDedupIsExactIff` | internal/semp/getQueueStatsSemp1.go:86-89 | comparing keys keeps the same items as comparing VPN and name if and only if no two neighbours are different endpoints with one key |
| `Paging.VpnsCollideIff` | internal/semp/getQueueStatsSemp1.go:86 | two VPN names have endpoints with one key if and only if the longer name is the shorter one followed by a separator and anything, or by a part of a separator |
| `Paging.PlainVpnsNeverCollide` | internal/semp/getQueueStatsSemp1.go:86 | in particular, for VPN names without an underscore the key determines VPN and endpoint |
| `QueueStats.SendPage` | internal/semp/getQueueStatsSemp1.go:85-105 | one page sends the 14 metrics of each item kept after the carried key, and carries the last key on |
| `QueueStats.GetQueueStatsSemp1` | internal/semp/getQueueStatsSemp1.go:53-110 | the getter sends the metrics of the adjacent-deduplicated items of all pages before a failure; its result is -1 exactly for a failed request, 0 for a reply that cannot be decoded or is not ok, each with that failure's text, and 1 without an error for a complete conversation |
| `QueueStats.QueueMetricsDistinct` | internal/semp/metricDesc.go:56-71 | every statistic of every queue is a series of its own: no two share a map key unless statistic, VPN and queue agree |
| `QueueStats.MetricNamesItsQueue` | internal/semp/getQueueStatsSemp1.go:91-104 | every metric of a queue is an unmarked counter with the queue's VPN under `vpn_name` and its name under `queue_name` |
| `QueueStats.OneCounterOneMetric` | internal/semp/getQueueStatsSemp1.go:91-104 | a queue that differs in one counter differs in the metric of exactly that statistic, which has the counter's value |
| `FieldSelection.MapItems` | internal/semp/helper.go:9-34 | translation succeeds if and only if every item is known, gives the raw fields in order, and otherwise names the first unknown item, in any iteration order |
| `FieldSelection.TranslatingTwiceIff` | internal/semp/helper.go:19-33 | translating twice equals translating once, for every acceptable list, if and only if each raw field that is also a name stands for itself |
| `FieldSelection.GetSempV2FieldMapList` | internal/semp/semp.desc.struct.go:40-47 | the map has every description's name and no other, each with the field of a description of that name |
| `FieldSelection.FieldMapIsUnique` | internal/semp/semp.desc.struct.go:40-47 | for distinct names that leaves one map, whatever the iteration order |
| `FieldSelection.GetSempV2FieldsToSelect` | internal/semp/semp.desc.struct.go:49-62 | the selected fields are those the filter stands for plus every mandatory field, none of them missing and nothing else |
| `FieldSelection.SelectionIsUnique` | internal/semp/semp.desc.struct.go:49-62 | for distinct names no iteration order shows in the selected fields or in the reported item |
| `FieldSelection.FieldIsOnlyAField` | internal/semp/metricDesc.go:56-71 | no statistic's field is another's metric name or a mandatory field |
| `FieldSelection.KnownIsSpelled` | internal/semp/helper.go:19-31 | with the queue table a filter item is accepted only if it is the name or the raw field of a statistic |
| `FieldSelection.SpelledIsKnown` | internal/semp/helper.go:19-31 | both spellings are accepted and give the same raw field |
| `FieldSelection.SentIffSpelled` | internal/semp/getQueueStatsSemp2.go:62-131 | for an accepted filter a statistic is sent if and only if the filter is empty or spells it, except the count of spooled messages, which never is |
| `FieldSelection.RequestedIff` | internal/semp/getQueueStatsSemp2.go:62-77 | the request of an accepted filter selects `queueName`, `msgVpnName` and the field of every statistic the filter spells, and nothing else |
| `FieldSelection.SpooledCountAloneYieldsNothing` | internal/semp/getQueueStatsSemp2.go:111-131 | a filter naming only that count is accepted and selects no row |
| `FieldSelection.GettersAgree` | internal/semp/getQueueStatsSemp2.go:104-132 | for the same queues the v2 getter without a filter sends what the v1 getter sends, in the same order, less the counts of spooled messages |
| `FieldSelection.SelectMetrics` | internal/semp/getQueueStatsSemp2.go:111-131 | a queue sends exactly the rows of the 13-row table that are selected, in table order |
| `FieldSelection.ScrapeQueues` | internal/semp/getQueueStatsSemp2.go:79-135 | paging is as in v1, for the selected rows; the result is 1 for a complete conversation and otherwise 0 with the failure's text |
| `FieldSelection.GetQueueStatsSemp2` | internal/semp/getQueueStatsSemp2.go:62-135 | a rejected filter sends nothing and names the item; an accepted one selects what is sent for the queues kept, with result 1 exactly for a complete conversation and otherwise 0 with the failure's text |
| `Ownership.AddPage` | tools/endpointOwnershipStatistics.go:94-110 | one page extends the partition by owner with the items kept after the carried key, in arrival order |
| `Ownership.CollectEndpoints` | tools/endpointOwnershipStatistics.go:68-114 | unless a request fails, the lists partition the adjacent-deduplicated endpoints of all pages by owner |
| `Ownership.Total` | tools/endpointOwnershipStatistics.go:116-121 | summed over the owners in any order, the total is the number of endpoints kept |
| `Ownership.EndpointStats` | tools/endpointOwnershipStatistics.go:166-219 | the whole tool: nothing printed on a failure, else the partition and the conserved total |
| `Ownership.OwnedInPlace` | tools/endpointOwnershipStatistics.go:99-109 | each endpoint stands in its owner's list at the place given by the number of that owner's endpoints before it |
| `Ownership.OwnedOnly` | tools/endpointOwnershipStatistics.go:99-109 | every place of an owner's list is that of one of its endpoints |
| `UpStream.Dispatch` | internal/exporter/exporter.collect.go:20-181 | whatever `up` and `err` hold from the source before: `Health` and `StorageElement` are served unless the broker is hardware, the seven hardware targets if it is, all other targets always, `QueueStatsV2` unless a wildcard meets no default VPN, nothing else; a served source has its getter's reply, a refused one sends nothing and has result 0 and its own error; and which VPN the v2 getter is asked for |
| `UpStream.ScrapeSource` | internal/exporter/exporter.collect.go:19-202 | one round of the loop sends what the source sends by itself, ended by its `up` metric, or panics where it does |
| `UpStream.CollectPrometheusMetric` | internal/exporter/exporter.collect.go:14-203 | the stream is the concatenation of the rounds of the processed sources, each by itself, and those are the sources up to and including the first panic or negative result |
| `UpStream.UpTellsOwnResult` | internal/exporter/exporter.collect.go:183-201 | the metric that closes a source's segment is 1 if and only if its own result is at least 1, has its own error or "Unknown" or nothing, and says `global` exactly for a negative result |
| `UpStream.RoundPanicsIff` | internal/exporter/exporter.collect.go:183-201 | a round panics exactly if the getter does or a label of the `up` metric is not valid text |
| `UpStream.FailedRequestStops` | internal/exporter/exporter.collect.go:153-198 | a failed request of the v1 queue getter stops the scrape |
| `UpStream.OneUpPerSource` | internal/exporter/exporter.collect.go:19-201 | the stream of a whole scrape has exactly one `up` metric per processed source, but none for a last one that panicked |
| `UpStream.StreamIsUnmarked` | internal/semp/prometheusMetric.struct.go:20-33 | nothing in the stream is marked, which is what the prefetch map needs of its producer |
| `VaultRenewal.NextRenewalRetryDelay` | internal/secret/hashicorp_backend.go:211-224 | the delay is min(30 * 2^(n-1), 600) seconds after n failures and 30 seconds below one, reached by at most five doublings that never pass 960 seconds |
| `VaultRenewal.BackoffMonotone` | internal/secret/hashicorp_backend.go:208-224 | more failures never shorten the wait, which stays between 30 and 600 seconds |
| `VaultRenewal.BackoffInSeconds` | internal/secret/hashicorp_backend.go:27-28 | the curve is 30, 60, 120, 240, 480 and from the sixth failure on 600 seconds |
| `VaultRenewal.ApplyJitter` | internal/secret/hashicorp_backend.go:228-231 | the jittered wait is below 1.2 times the delay and at least 0.8 times, up to the truncation to whole nanoseconds |
| `VaultRenewal.EveryWaitComesUp` | internal/secret/hashicorp_backend.go:228-231 | every whole wait from 0.8 times the delay to below 1.2 times comes up for some random number |
| `VaultRenewal.ConsecutiveFailuresIs` | internal/secret/hashicorp_backend.go:243-258 | the number that drives the backoff is the length of the unbroken run of failures at the end, no shorter and no longer |
| `VaultRenewal.RenewalLoop` | internal/secret/hashicorp_backend.go:243-277 | after every attempt of every run the wait is the jittered backoff of the failures since the last success, or half of a lease of at least ten seconds, 5 seconds for a shorter one and 30 seconds without one |
| `VaultRenewal.RenewsByHalfLeaseIff` | internal/secret/hashicorp_backend.go:262-270 | the next try comes by half the lease if and only if the lease is at least ten seconds, wrap-around included |
| `VaultRenewal.SecretTtlIsHalfLeaseIff` | internal/secret/hashicorp_backend.go:169-172 | a leased secret is cached for half its lease if and only if the lease fits 64-bit nanoseconds, one without a lease for the configured time |
| `VersionNumber.PackVersion` | internal/semp/getVersionSemp1.go:56-61 | the loop packs the dot-separated components of the load name, after `soltr_` where it begins with that |
| `VersionNumber.PackedIsWeighted` | internal/semp/getVersionSemp1.go:58-63 | for components of at most three digits after the first, the packed text is their base-1000 number |
| `VersionNumber.PackingOrders` | internal/semp/getVersionSemp1.go:58-63 | such versions of equal length order as their numbers do, and equal numbers mean equal versions |
| `VersionNumber.PackingOrdersIff` | internal/semp/getVersionSemp1.go:58-63 | over all versions with components after the first of width at most w, equal numbers mean equal versions if and only if w is at most 3, and so does keeping the order |
| `VersionNumber.LessAtFirstDifference` | internal/semp/getVersionSemp1.go:57-63 | the order meant is the lexicographic one: the first differing component decides |
| `VersionNumber.ComponentRecovered` | internal/semp/metricDesc.go:81 | each component can be read back from the number: the first by dropping the digits after it, the others by a remainder too |
| `VersionNumber.ShiftedIsQuotient` | internal/semp/metricDesc.go:81 | dropping k base-1000 digits is dividing by the k-th power of 1000 |
| `VersionNumber.ExactAsFloat` | internal/semp/getVersionSemp1.go:62-63 | up to five components the number is below 2^53, so the float holds it exactly |
| `IssuerFrame.DecodeEncode` | internal/exporter/auth.go:103 | unpadded base64 (sections 3.2 and 4 of RFC 4648) loses nothing for byte strings of every length, and contains neither `=` nor `~` |
| `IssuerFrame.KnownAnswers` | internal/exporter/auth.go:103 | the encoding gives the answers of section 10 of RFC 4648 |
| `IssuerFrame.LastLetters` | internal/exporter/auth.go:103 | and uses the letters `+` and `/` of the standard alphabet |
| `IssuerFrame.UnframeFrame` | internal/exporter/auth.go:96-105 | for every issuer and token the receiver gets both back from the text between the tildes and the rest |
| `IssuerFrame.FramesAgreeIff` | internal/exporter/auth.go:96-105 | framed tokens are equal if and only if issuer and token are; a bare token is mistaken for one exactly when it has that shape |
| `DataSources.AcceptedIffBar` | cmd/solace-prometheus-exporter/main.go:206-210 | a value is accepted if and only if it has a bar in it |
| `Text.BlankIff` | internal/exporter/config.struct.go:280 | a text is blank exactly if trimming leaves nothing of it |
| `DataSources.ParsesAs` | cmd/solace-prometheus-exporter/main.go:206-222 | an accepted value says two filters, and a list of metrics exactly where there is a third part, no fourth, and more than blanks in the third |
| `DataSources.RoundTripIff` | internal/exporter/dataSource.struct.go:15-17 | parsing the printed value gives the data source back if and only if no filter has a bar, no metric filter item a comma, and a metric filter that is there is not blank |
| `DataSources.ShownNameEndsIff` | internal/exporter/dataSource.struct.go:15-17 | the first `=` of the printed form separates name and value if and only if the name has none |
| `DataSources.ReparseIsStable` | internal/exporter/config.struct.go:274-289 | printing and parsing again what was parsed changes nothing |
| `DataSources.ParseDataSources` | cmd/solace-prometheus-exporter/main.go:199-226 | every value with a bar of every parameter `m.` and a name gives one data source of that name, at the place given by the number of such values before it, the parameters once each in an order not chosen; there are no others |
| `DataSources.ParseParameter` | cmd/solace-prometheus-exporter/main.go:205-223 | the result has as many data sources as there are values with a bar, and holds that of each such value at the place given by the number of such values before it |
| `DataSources.NamedPlaceIsTaken` | cmd/solace-prometheus-exporter/main.go:201-224 | every place of the list of a request is that of one of these values |
| `DataSources.PlaceIsTaken` | cmd/solace-prometheus-exporter/main.go:205-223 | every place of that list is that of some value with a bar, so nothing else is in it |
| `DataSources.NumberedTargets` | internal/exporter/config.struct.go:265-272 | a number after a dot is dropped from a target's key, so one target can occur several times |
| `DataSources.TargetShortenedIff` | internal/exporter/config.struct.go:265-272 | a key is shortened if and only if it is word characters, a dot and digits |
| `DataSources.ParseSection` | internal/exporter/config.struct.go:270-290 | one data source per key, in order, or a failure naming the first refused value |

## Left out

- HTTP, TLS, XML, JSON, ini files, logging and the Vault and OAuth client libraries: their results are free arguments or actions.
- The other `get*Semp1` functions: straight copies of fields to metrics or the same paging loop; `getClientStatsSemp1` and `getRdpInfoSemp1` never update their last key, so the paging results do not apply to them.
- The text of the SEMP requests (page size, item filter, query escaping) and the metrics' help texts and constant labels.
- The web handler, basic authentication, landing page, per-request overrides, environment and ini precedence, certificate parsing, `logDataSource`, `setAuthHeader`.
- How `ReadSecret` finds a field in a reply (KV v1 and v2), and how the Vault token is obtained: only the TTL it recommends is modelled.
- The 30-second timeout of a shared backend read: a read may fail at any time, which includes a timeout.
- The semaphore's queue and the read-write lock's preference for writers: any waiter may be served next, which allows more runs than Go does.
- Fairness and real time: the lemmas say that somebody can move and how many actions remain, not when they happen.
- `singleflight`, the channel, the mutexes and the semaphore themselves: taken as primitives with their documented behaviour.
- UTF-8: text is a sequence of characters, and the test for valid UTF-8 is an arbitrary predicate.
- Floating point: counters and jitter are reals, the packed version an integer below 2^53.
- Resolve: models one caller that nobody interferes with; interleaved callers are in `SecretRuns`, where a caller returns from a literal or malformed text in one action.
- GetOAuthToken: models one caller that nobody interferes with; in `OAuthRuns` all clones are one shared cache, because `Clone` copies the pointer.
- ReadMetrics: takes the received metrics as one list; their arrival through the channel, chunk by chunk and between scrapes, is in `PrefetchRuns`.
- ApplyJitter: the lower bound is exact for delays of whole fifths, which all delays of the backoff are; for others the truncation may lose less than a nanosecond.
- PackVersion: assumes that the format `%03v` pads text with zeros, as the metric's help text says; the lemmas are about components of digits, and what `ParseFloat` makes of others is not modelled.
- MapItems: the error carries the item but not the list of valid items in its text.
- GetQueueStatsSemp1: a conversation with the broker is a finite tree of replies; a broker that asks for further pages without end is not modelled.
- ParseSection: one section; that the sections are collected into a map by name is not modelled. The source reads a value with the same lines in the request and the ini parser; the model has them once, so that the two agree holds by construction.
- CancelIsInvisible: the comparison is with a run in which the caller goes on waiting; had it stored its value, others might have been served from the cache.
- UpTellsOwnResult: says nothing for a round that panics, which sends no `up` metric; the stream then ends with what the getter had sent.
- OneUpPerSource: assumes that no getter sends an `up` metric itself, which none does.
