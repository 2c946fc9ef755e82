# Verified model of the tiki client side

tiki is a Go microservice framework. This project models the stateful parts of its client side in
Dafny and proves properties of them: service discovery from the Consul poll to the gRPC resolver's
deltas, the broadcast cache, the circuit-breaker registry and the names that tie it to endpoints and
metrics, the weighted balancer, endpoint selection, lazy client creation, the locks, and the
discovery setting.

Objects whose methods update fields are classes, and each method is proved against a function of the
old state. Concurrency is modelled on values: a machine whose actions are the steps of the
goroutines, whose every interleaving is a list of actions, and whose steps use the same functions the
methods are proved against. `Locks` justifies taking a section under the registry's or a client's
lock as one step; the cache's, the default client's and the watcher's locks are not in it, and the
sections under those are one step by assumption.

| file | what it models |
|---|---|
| Wrappers.dfy, Text.dfy, Decimal.dfy, Ordering.dfy | optional values, strings.Split and friends, decimal text, the order of sort.Strings |
| Naming.dfy | the Consul watcher: snapshots into Add/Delete deltas |
| Cache.dfy | the broadcasting cache |
| Backoff.dfy, Instancer.dfy | the doubling delay; the polling rounds, filters and tag maps |
| Pipeline.dfy | poll loop, query goroutines, cache, bounded channel and watcher, interleaved |
| CommandNames.dfy, CircuitBreak.dfy | dash-joined names and keys; the two maps of the registry |
| LoadBalancer.dfy, Endpoints.dfy | weighted selection; the filter by open circuits, factory and closer |
| Requests.dfy | requests, factory, the two halves of a close and the registry, interleaved lookup by lookup |
| ClientCache.dfy, DiscoveryConfig.dfy | double-checked client creation; the discovery setting |
| Locks.dfy | the reader-writer locks and who takes them in which order |

Iteration orders of Go maps, random numbers, Consul's answers and hystrix's reports are parameters.
HTTP methods are called verbs in the Dafny text.

## Results that differ from what one might expect

- Keys agree only without dashes. The breaker normalises `-` to `_` in the uri and cuts the method at
  its first dash; the closer and the request filter use both raw (`KeysAgreeIff`). So a close takes
  its endpoint out of the registry, and a report is true, in every run exactly if no endpoint in use
  has a dash in uri or method and no two commands share a key (`CloseCleansUpIff`,
  `ReportIsTrueIff`). Otherwise a lookup hits whatever breaker's segments concatenate to its own
  (`LookupHitsIff`, with dashed addresses as in `DashedAddressHit`), or none
  (`InvisibleIff`, `FilterSilentIff`).
- A close is undone when a caller stands between the two locks of configCmd: the closed endpoint is
  filed again (`RefiledAfterClose`). Without a new call a command stays out exactly if no caller
  stands there with it (`StaysOutIff`).
- A command determines its key exactly if no method in use is another one followed by a dash and
  more (`CommandDeterminesKeyIff`).
- The registry's two maps are inverse exactly when no two commands in use share a key (`InverseIff`).
  Two clients that differ only in source or host and reach the same address do share one
  (`CollisionIff`); the overwritten command then stays configured and invisible for ever
  (`OrphansStay`).
- `Select` panics exactly on two or more endpoints that all weigh nothing, but returns a single
  endpoint whatever its weight (`PanicIff`).
- The backoff doubles exactly for the first 39 failures of a streak, wraps around after that, and is
  zero from the 57th on (`DoublesIff`, `CollapsesToZero`); the sleeps of a streak add up accordingly
  in every run (`SleepsByStreak`), to a total that no streak exceeds (`SleepIsBounded`).
- The discovery setting may go on after a second double colon, with anything (`ParsedIff`).
- A changed tag of an address that stays live never reaches the gRPC consumer (`MetadataHistory`).
- Callers get a client of another uri and method exactly when two requests print to one key
  (`AsAskedIff`), which takes a dash in a method (`SameKeyIff`, `DashFreeVerbsDistinct`).
- client/http/lb/lb_test.go:25 expects the word "empty" in the error for no endpoints; the text at
  client/http/lb/lb.go:64 does not contain it. The model has the error and not its text.

## Model

| member | source | states |
|---|---|---|
| Naming.ConsulWatcher.MakeUpdates | client/grpc/consul_naming.go:95-179 | the returned updates and the new entries are one function of the live set, the message and the iteration order, on the nil-entries branch and on the general one; an error message gives no update and changes nothing |
| Naming.ConsulWatcher.FirstUpdates | client/grpc/consul_naming.go:110-122 | on nil entries every listed address is added, as the general branch does from the empty set |
| Naming.ExactDiff | client/grpc/consul_naming.go:128-166 | Adds cover exactly new minus old, Deletes exactly old minus new |
| Naming.DiffSize | client/grpc/consul_naming.go:128-158 | every Delete comes once; without duplicates in the snapshot the number of updates is the size of the symmetric difference |
| Naming.UpdatesExactly | client/grpc/consul_naming.go:101-158 | an address that is not live is added with its label as often as it is listed, a live unlisted one is deleted once, and there is no other update; none at all for an error |
| Naming.UpdatesInOrder | client/grpc/consul_naming.go:114-158 | the Adds come first, in the order of the list, and then the Deletes, in that of the range |
| Naming.LabelRecoversIff | client/grpc/consul_naming.go:118-138 | the tags can be read off the metadata exactly if there are tags and none has a comma; without tags it is empty |
| Naming.DeltasAbsorb | client/grpc/consul_naming.go:114-158 | a consumer that applies the deltas ends with exactly the snapshot's addresses, old ones keeping their metadata |
| Naming.MetadataHistory | client/grpc/consul_naming.go:114-158 | after any messages a live address has the joined tags of the message that last took it from absent to present |
| Naming.LiveIffAdmitted | client/grpc/consul_naming.go:110-166 | an address is live if and only if some message admitted it and no later snapshot dropped it |
| Cache.Cache.Update | client/sd/instancer/cache.go:28-39 | sorts the caller's slice in place and stores and broadcasts the event unless it is already held |
| Cache.Cache.Broadcast | client/sd/instancer/cache.go:71-75 | every registered channel, and no other, gets the event once |
| Cache.Cache.Register | client/sd/instancer/cache.go:53-59 | a new channel is handed the current state at once |
| Cache.Cache.Deregister | client/sd/instancer/cache.go:62-66 | the channel is no longer registered and nothing is sent |
| Cache.AlwaysCanonical | client/sd/instancer/cache.go:32-38 | in every run the cached instances are sorted |
| Cache.SilentIffRearrangement | client/sd/instancer/cache.go:32-38 | an update changes and sends nothing exactly when it rearranges the list held, with the same error; nil matches only nil |
| Cache.SubscriberHistory | client/sd/instancer/cache.go:28-83 | a channel registered once receives the state at registration and then every later change in order, the last being the cache's state |
| Cache.RemovedHearsNothing | client/sd/instancer/cache.go:62-83 | a channel that was removed receives nothing until it is registered again |
| Cache.ChangesDiffer | client/sd/instancer/cache.go:36-38 | consecutive events of that history differ |
| Ordering.SortedUnique | client/sd/instancer/cache.go:35 | two sorted arrangements of the same elements are equal, so the sorting algorithm does not matter |
| Ordering.LexIff | client/sd/instancer/cache.go:35 | ascending: a prefix comes first, and otherwise the first difference decides |
| Instancer.FilterEntries | client/sd/instancer/consul_instancer.go:192-211 | returns the recursively defined selection of the entries with all tags |
| Instancer.MatchingKeeps | client/sd/instancer/consul_instancer.go:192-211 | an entry with all tags is kept as often as it occurs, any other never |
| Instancer.MatchingInOrder | client/sd/instancer/consul_instancer.go:192-211 | the filter keeps the order of the entries |
| Instancer.SelectedKeeps | client/sd/instancer/consul_instancer.go:111-143 | for any number of tags, an entry that carries every tag but the first is kept as often as it occurs, any other never |
| Instancer.SelectedAt | client/sd/instancer/consul_instancer.go:111-143 | what is kept stands at ascending positions, which are all those of such entries |
| Instancer.MakeInstances | client/sd/instancer/consul_instancer.go:213-223 | the i-th instance is the service's address, or the node's if that is empty, with the port |
| Instancer.InstanceParts | client/sd/instancer/consul_instancer.go:213-223 | an instance is the service's address, or the node's if that is empty, a colon, and text that parses as the port |
| Instancer.InstanceInjective | client/sd/instancer/consul_instancer.go:213-223 | two entries have one instance exactly if address and port agree, whatever colons the addresses have |
| Instancer.TagKeys | client/sd/instancer/consul_instancer.go:145-158 | the keys of a snapshot's tag map are exactly its instances |
| Instancer.LastEntryWins | client/sd/instancer/consul_instancer.go:148-157 | of several entries for one instance the last gives the tags |
| Instancer.Instancer.FirstRound | client/sd/instancer/consul_instancer.go:57-67 | the constructor's own query updates the cache and calls the listener with the sorted slice, errors included |
| Instancer.Instancer.GetInstances | client/sd/instancer/consul_instancer.go:111-175 | success returns the instances of the entries at exactly the positions to keep, replaces the tag map by one with these keys, and returns the reply's index; failure leaves the tag map and returns index 0 |
| Instancer.Instancer.Loop | client/sd/instancer/consul_instancer.go:82-109 | for every list of query results the cache, tag map, listener calls, index and delay are those of the turns, up to the first io.EOF |
| Instancer.StartThenTurns | client/sd/instancer/consul_instancer.go:57-109 | constructor and loop together go through the rounds used by the pipeline |
| Instancer.CallsReport | client/sd/instancer/consul_instancer.go:57-109 | reply by reply, up to the first io.EOF after the constructor's, the listener is told the error, or the sorted instances of exactly the entries to keep with the tags of the last entry of each; a failure comes with the tag map before it |
| Instancer.IndexIsLatest | client/sd/instancer/consul_instancer.go:84-89 | the next query waits from the index of a success, and from 0 after a failure |
| Instancer.CallsCarryTheirTags | client/sd/instancer/consul_instancer.go:64-105 | every successful listener call has sorted instances and a tag map with exactly them as keys |
| Instancer.HeldIsLastCall | client/sd/instancer/consul_instancer.go:64-107 | after every round the cache holds what the listener was last told |
| Instancer.StoppedIff | client/sd/instancer/consul_instancer.go:57-92 | the loop has stopped exactly if some result after the constructor's was io.EOF |
| Instancer.DelayIsStreak | client/sd/instancer/consul_instancer.go:86-103 | the delay depends only on the failures since the last success |
| Instancer.StreakIff | client/sd/instancer/consul_instancer.go:86-103 | the streak is k exactly if the last k results failed and the one before them is a success or the constructor's |
| Instancer.DelayAfterFailures | client/sd/instancer/consul_instancer.go:86-103 | so that many failures after a success or the constructor's query make the delay |
| Backoff.DoublesIff | client/sd/instancer/consul_instancer.go:86-96 | the delay is 10 ms times two to the k exactly for k up to 39, and the time slept is then that less 10 ms |
| Backoff.WrapExact | client/sd/instancer/consul_instancer.go:96 | for every k the delay is 10 ms times two to the k less whole turns of two to the 64, within the range of a signed 64-bit integer |
| Backoff.CollapsesToZero | client/sd/instancer/consul_instancer.go:95-96 | from the 57th failure on the delay is zero and nothing more is slept |
| Backoff.SleepIsBounded | client/sd/instancer/consul_instancer.go:95-96 | no streak sleeps longer than 52948117131543144832 ns in all, and one of 56 failures or more sleeps just that |
| Pipeline.OneLiveQuery | client/sd/instancer/consul_instancer.go:111-175 | in every interleaving, interrupts included, at most one query goroutine is not done |
| Pipeline.TagMapIsLastFound | client/sd/instancer/consul_instancer.go:145-158 | after any run the tag map is empty or that of the last successful query, even one whose result is never taken, with its instances as keys |
| Pipeline.RepliesAreAnswers | client/sd/instancer/consul_instancer.go:124-175 | in every run the loop takes Consul's answers, errors included, as they are and in order; at most the latest is not taken, while its query is waited for or after an interrupt |
| Pipeline.QueriesAskFromLast | client/sd/instancer/consul_instancer.go:82-136 | in every run a query waits from the index of the answer before it if that was a success, and from 0 otherwise |
| Pipeline.StopsOnlyIf | client/sd/instancer/consul_instancer.go:76-92 | the loop has stopped only after io.EOF or Stop, always after the former, and never in the constructor's round |
| Pipeline.CallsFollowReplies | client/sd/instancer/consul_instancer.go:82-109 | the listener's calls are those of the sequential rounds on the results taken, which are Consul's answers, whatever the interleaving |
| Pipeline.AnswersAreTold | client/sd/instancer/consul_instancer.go:57-109 | in every run the i-th call of the listener tells of Consul's i-th answer, and at most two answers are not told yet |
| Pipeline.ProducedCarryTheirTags | client/sd/instancer/consul_instancer.go:99-105 | in every interleaving a successful call of the listener has a tag map with exactly its instances as keys |
| Pipeline.Conservation | client/grpc/consul_naming.go:61-93 | consumed, in hand, buffered and blocked in the send make up the produced snapshots in order; the buffer holds at most one |
| Pipeline.ReplayIsLastSnapshot | client/grpc/consul_naming.go:82-179 | folding every update Next returned over the empty table gives the instances of the last successful snapshot consumed |
| Pipeline.ConsumerSeesConsul | client/grpc/consul_naming.go:53-179 | from end to end: the addresses that folding every update gives are those of exactly the entries with every tag but the first in Consul's last successful answer of those consumed |
| Pipeline.HeldIsLastProduced | client/sd/instancer/consul_instancer.go:97-105 | outside the gap between cache update and listener call the cache holds the last snapshot produced |
| Pipeline.QuiescentAgreement | client/grpc/consul_naming.go:59-179 | when nothing is pending and the cache holds no error, the replayed addresses are the cache's instances |
| Pipeline.ReplayMetadata | client/grpc/consul_naming.go:115-140 | the metadata of a replayed address is the tags of the message that last admitted it |
| Pipeline.SleepsByStreak | client/sd/instancer/consul_instancer.go:86-96 | in every run the loop slept once for each failure that makes it back off, and the sleeps of the present streak add up to what that many doublings give |
| Pipeline.CanDrain | client/grpc/consul_naming.go:66-93 | from every reachable state sends, receives and returns alone bring everything produced to the consumer |
| Text.JoinSplit | client/http/middleware/circuit_break.go:56 | joining undoes splitting |
| Text.SplitIff | client/http/middleware/circuit_break.go:56 | splitting is the one way to write a text as pieces between separators with every cut leftmost |
| Text.SplitJoinIff | client/grpc/consul_naming.go:118 | splitting undoes joining at a character exactly if there is a piece and none contains it |
| Text.SplitAppend | client/http/middleware/circuit_break.go:56 | splitting at one character distributes over a joint at that character |
| CommandNames.CommandNameFields | client/http/endpoint.go:83-86 | for any source, host, uri and method the name splits into the normalised first three and the method's segments |
| CommandNames.NormalIff | client/http/endpoint.go:110-112 | two texts have one normal form exactly if they differ in nothing but dashes and underscores |
| CommandNames.NamePrinted | client/http/endpoint.go:83-86 | my-app, user, /user-info and GET print as my_app-user-/user_info-GET, and a key keeps its dashes |
| CommandNames.BreakerKeyOf | client/http/middleware/circuit_break.go:55-59 | the breaker always finds its segments, and makes its key of the address, the normalised uri and the method up to its first dash |
| CommandNames.CollectorRecoversIff | client/http/middleware/hystrix_metrics.go:210-216 | the collector recovers all five fields exactly when method and address have no dash |
| CommandNames.KeyInjective | client/http/middleware/circuit_break.go:59 | for dash-free uris and methods a key determines address, uri and method |
| CommandNames.KeysAgreeIff | client/http/endpoint.go:198-291 | the breaker's key is the one resolveHost and the closer use exactly for a dash-free uri and method |
| CommandNames.CommandInjective | client/http/middleware/circuit_break.go:55-60 | unless one method extends the other at a dash, a command determines its normalised fields, method and address |
| CommandNames.ExtendingMethodsCollide | client/http/middleware/circuit_break.go:55-60 | any method that extends another at a dash gives one command two keys, whatever source, host and uri |
| CommandNames.LookupHitsIff | client/http/endpoint.go:198-199 | whatever the dashes, a lookup asks for a breaker's key exactly if its segments of address, uri and method are the breaker's address segments, normalised uri and first method segment |
| CommandNames.DashedAddressHit | client/http/endpoint.go:198-199 | the lookup for address a, uri b-c asks for the key filed for address a-b, uri c |
| CircuitBreak.Registry.ConfigCmd | client/http/middleware/circuit_break.go:74-92 | a missing command is configured once and filed in both maps, a present one changes nothing |
| CircuitBreak.Registry.CleanupEndpoint | client/http/middleware/circuit_break.go:95-106 | the key and its command leave the maps, nothing else does |
| CircuitBreak.Registry.IsCircuitOpen | client/http/middleware/circuit_break.go:109-126 | reports open exactly if a circuit is filed under the key, known and open |
| CircuitBreak.Conservation | client/http/middleware/circuit_break.go:74-106 | in every interleaving a command was configured as often as cleanup removed it, plus one if it is there |
| CircuitBreak.AlwaysKeysConfigured | client/http/middleware/circuit_break.go:38-106 | in every interleaving each key's command is configured under that key, so cmdMap is injective |
| CircuitBreak.InverseIff | client/http/middleware/circuit_break.go:38-106 | the maps are inverse in every interleaving exactly when no two commands in use share a key |
| CircuitBreak.OverwriteOrphans | client/http/middleware/circuit_break.go:88-90 | configuring a second command under a key leaves the first under none |
| CircuitBreak.OrphansStay | client/http/middleware/circuit_break.go:74-106 | such a command is never removed, found or configured again, whatever happens later |
| CircuitBreak.CommandDeterminesKeyIff | client/http/middleware/circuit_break.go:55-60 | over any set of methods, equal commands have equal keys exactly if no method extends another at a dash |
| CircuitBreak.CollisionIff | client/http/endpoint.go:83-86 | any two endpoints share a key under different commands exactly when the addresses are equal, the uris differ in nothing but dashes and underscores, the methods agree up to the first dash, and the sources or hosts differ in more than those or the whole methods differ |
| CircuitBreak.CloseCleansUpIff | client/http/endpoint.go:273-292 | over a set of endpoints, closing takes every configured one out of the registry in every interleaving exactly if none has a dash in uri or method and no two share a key |
| CircuitBreak.StaysOutIff | client/http/middleware/circuit_break.go:74-106 | a command that is out stays out in every continuation without a new call of it exactly if no caller stands between the two locks with it |
| CircuitBreak.RefiledAfterClose | client/http/middleware/circuit_break.go:74-106 | for every dash-free endpoint an interleaving of two callers and a close ends with it filed again |
| CircuitBreak.ReportIsTrueIff | client/http/endpoint.go:198-199 | over a set of endpoints, a configured one is reported open exactly if its circuit is, in every interleaving and for all circuits, exactly under the condition of CloseCleansUpIff |
| CircuitBreak.InvisibleIff | client/http/endpoint.go:191-292 | an endpoint is never reported open and its close removes nothing, in every interleaving, exactly if its key is none that the endpoints in use file under |
| CircuitBreak.FiledKeyIff | client/http/endpoint.go:198-292 | its key is one of theirs exactly if the segments of address, uri and method are those of one of their keys |
| Decimal.AtoiItoa | client/http/lb/lb.go:47 | parsing the decimal text of a 64-bit integer gives it back |
| Decimal.AtoiIff | client/http/lb/lb.go:47 | a text parses as a number exactly if it is its decimal digits, possibly after zeros, with a fitting sign, and the number is in range |
| Decimal.Printed | client/sd/instancer/consul_instancer.go:220 | 8090 prints as 8090 and -15 as -15 |
| LoadBalancer.Select | client/http/lb/lb.go:29-86 | for every order of iteration and every draw the result is Choose's, including no endpoints and the panic of rand.Intn |
| LoadBalancer.LastEffectiveTagDecides | client/http/lb/lb.go:38-58 | the last effective tag decides the weight, 100 if there is none |
| LoadBalancer.EffectOf | client/http/lb/lb.go:41-55 | stg sets 1; any other tag is effective exactly if it is weight_ and a machine integer, and sets that integer or the bound of 0 and 100 beyond which it is |
| LoadBalancer.WeightTag | client/http/lb/lb.go:43-53 | for every machine integer w the tag weight_w sets w, 0 for a negative w, and 100 for one above 100 |
| LoadBalancer.WeightBounds | client/http/lb/lb.go:38-58 | a weight is in 0..100 |
| LoadBalancer.PicksIff | client/http/lb/lb.go:74-83 | position i is found exactly on the draws between the weights before it and up to it |
| LoadBalancer.ChooseIff | client/http/lb/lb.go:74-85 | among two or more endpoints the i-th is returned exactly on the draws from the weights before it up to its own |
| LoadBalancer.SelectIsWeighted | client/http/lb/lb.go:59-85 | among two or more endpoints each is chosen on exactly as many draws as its weight |
| LoadBalancer.ChosenInNumbers | client/http/lb/lb.go:38-85 | among two or more endpoints one whose last tag is weight_w with w in 0..100 is chosen on exactly w draws, with stg on one, and without tags on 100 |
| LoadBalancer.OrderIsImmaterial | client/http/lb/lb.go:35-83 | the order of the range changes no count and not the total, and weight zero is never picked |
| LoadBalancer.PanicIff | client/http/lb/lb.go:63-85 | the panic, the error and the single-endpoint case, each exactly |
| Endpoints.EndpointClient.ResolveHost | client/http/endpoint.go:191-213 | filters by what each lookup found in the registry at its own time and by the one-in-ten draws, and selects among what is left |
| Endpoints.PassIff | client/http/endpoint.go:199-206 | an endpoint reported open passes the filter on the draw 1 alone, one of ten, any other on every draw |
| Endpoints.ResolvedIsAllowed | client/http/endpoint.go:195-212 | a returned address has its own endpoint and was not reported open or drew a 1; the error comes exactly if every endpoint was reported open and drew something else |
| Endpoints.HealthyIsReachable | client/http/endpoint.go:195-212 | next to another candidate an endpoint not reported open, or that drew a 1, is returned on as many draws as its weight |
| Requests.ResolvedIsCurrent | client/http/endpoint.go:191-305 | in every interleaving of requests, factory, closes and registry a returned address was created with the endpoint returned, and neither deleted nor replaced since |
| Requests.ResolvedPassedFilter | client/http/endpoint.go:195-212 | in every interleaving it was not reported open at its own lookup or drew a 1, and the error comes exactly if every endpoint was reported open at its own lookup and drew something else |
| Requests.LookupNeverStuck | client/http/endpoint.go:191-210 | in every interleaving the address a request is about to look up is still in the map |
| Requests.ClosersAreTheFactorys | client/http/endpoint.go:273-305 | in every interleaving each closer has its own address and raw key, and each deletion follows a creation at that address |
| Requests.RegistryIsRun | client/http/endpoint.go:273-278 | in every interleaving the registry underneath goes through a run of its own machine, so what is proved of those runs holds |
| Requests.LookupIsTrue | client/http/endpoint.go:198-199 | with endpoints named well, in every interleaving the report on a configured one is right at that moment |
| Requests.FilterSilentIff | client/http/endpoint.go:195-210 | for a uri and method and a set of addresses no lookup of any request is ever reported open, whatever is open, exactly if no address makes a key that the endpoints in use file under |
| ClientCache.DefaultClient.GetEndpointClient | client/http/client.go:194-245 | returns the client under the key, a new one being made for the uri and method asked for, or none if its creation failed; every client stays under the key of its own uri and method |
| ClientCache.OneClientPerKey | client/http/client.go:194-245 | in every interleaving at most one client is stored per key, and successful calls agree exactly when their keys do |
| ClientCache.MapGrows | client/http/client.go:194-245 | what is stored stays |
| ClientCache.AsAskedIff | client/http/client.go:195-245 | every caller gets a client of the uri and method asked for, in every interleaving, exactly if no two requests in use share a key |
| ClientCache.DashFreeVerbsDistinct | client/http/client.go:195 | dash-free methods are enough for that |
| ClientCache.SameKeyIff | client/http/client.go:195 | two requests share a key exactly if they are equal, or the method of one is the other's, a dash and a rest with which the other's uri begins |
| DiscoveryConfig.RoundTripIff | client/http/client.go:275-309 | parsing the printed setting gives back address and datacenter exactly when neither contains a slash or a double colon |
| DiscoveryConfig.ParsedIff | client/http/client.go:275-309 | exactly which texts are accepted and as what: consul, a double colon, address, slash and datacenter without slashes, up to the end or the next double colon; everything else is refused |
| DiscoveryConfig.PrintedSegments | app/app.go:103 | the printed text splits into the type and the segments of the rest |
| Locks.RoutineOrderly | client/http/endpoint.go:191-305 | every routine takes the registry's lock last, never keeps it while taking a client's, and gives back what it took |
| Locks.NoDeadlock | client/http/middleware/circuit_break.go:74-126 | with any number of threads running any of the routines, in every schedule, unless all are finished, some thread can move |
| Locks.SchedulesEnd | client/http/middleware/circuit_break.go:74-126 | every schedule has at most as many steps as there is work at the start, and exactly the full ones finish all threads |
| Locks.MutualExclusion | client/http/endpoint.go:191-305 | in every schedule a client's or the registry's lock held for writing is held by nobody else |
| Locks.NoDataRace | client/http/endpoint.go:191-305 | in no schedule is a thread about to write a client's endpoints or the registry's maps while another is about to read or write them |

## Left out

- HTTP, gRPC and Consul calls, TLS, timeouts, sockets, logging, Prometheus counters, tracing, panic recovery: I/O and side effects.
- Hystrix's circuits and go-kit's endpoint cache: they are not part of this repository; circuit reports and factory and closer calls are parameters.
- consulWatcher.Close and SetListener: the listener is written without synchronisation, so runs are those before Close.
- Concurrent calls of Next: the pipeline has one consumer, as gRPC's balancer is; several could pass their messages to makeUpdates out of order.
- Blocking of Cache.Update and Cache.Register on full subscriber channels: every send on a subscriber channel completes.
- Aliasing of the cached slice: the cache keeps the sorted contents and not the slice, so a caller that changes the slice after Update is not modelled.
- A consul.ServiceEntry without a Service: makeInstances would panic on it; entries have one here.
- The unlocked loop over the endpoints in getEndpointClient (client/http/client.go:205-208): its result is unused and it races with creation.
- Settings providers other than the file's: preset clients are under the key of their own method and uri.
- The consul endpointer's calls of the factory and of closers: any order of them is covered, and what makes it call them is not modelled.
- The lock of DefaultClient, the cache's lock and the watcher's lock are not in Locks: no routine of the two-lock order takes them; their sections are taken as one step.
- Bytes and characters: text is a sequence of characters, ordered character by character.
- Default filling of breaker settings, YAML loading, generated validators, example services: easy members.
- The arguments of the Consul query (service, first tag, passingOnly): Consul's answer is arbitrary, so its own filtering is not modelled.
- The clock: delays are the arguments of time.Sleep, and when it wakes up is not modelled.
