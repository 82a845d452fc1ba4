# Yoroi: a verified model of its stateful core

Yoroi is a toolkit for Go services. This project models the parts of it that keep state over time, and proves what
they keep: the service-discovery pipeline, the metric tries, the connection manager, the compare-and-swap metrics,
the load balancer with its retries, the Eureka registrar and the Consul polling loop.

`dafny verify dfyconfig.toml` checks everything.

## How it is laid out

| file | what it models |
|---|---|
| Order, Discovery | ordering and sorting of strings; events, by value and as slices that share storage |
| EndpointCache | `endpointCache` as a class, each method tied to a function on an abstract state |
| EndpointRuns | whole runs of it: lifecycle of endpoints, exposed order, error deadline |
| EndpointConcurrency, EndpointCalls, EndpointProgress | `Endpoints` and `Update` under the read/write lock, step by step; which call ran which operation; that calls get through |
| InstanceCache | `instance.Cache`, its channels and its deep copies |
| Suppression | both caches in a row: what dropping repeated events can be seen to do |
| Endpointer | the subscriber that joins them, and the pipeline from source updates to endpoints, in any order of turns |
| LabelValues, TrieWalks | label lists, as values and as slices, series, and depth-first walks over a trie in any order |
| Space | `lv.Space` as a heap of nodes that refines a flat map, with its shared walk buffer |
| SpaceConcurrency | `Observe` and `Add` against `Reset` |
| Gauges, GaugePasses, GaugeHistories, GaugeConcurrency | the DogStatsD gauge trie; what a pass over it writes; the value a gauge shows, from the calls made; writing a gauge against walking it |
| Generic | compare-and-swap counters and gauges, lock-freedom, the simple histogram |
| Backoff, ConnManager | exponential backoff; the connection manager's select loop, timer and dial goroutines |
| RoundRobin, Retry, RetryConcurrency | fair picks and the counter's wrap; the retry loop, and its goroutines and channels |
| EurekaRegistrar | callers, renewal loops and their quit handshake |
| ConsulInstancer | the index and backoff machine, and tag filtering |

Code that changes an object in place is a class here, and its methods are tied to functions on the object's abstract
state; the theorems about runs are about those functions. Code whose point is concurrency is a step machine: a
`Step` function over one atomic action of one thread, and theorems over every list of actions, hence over every
interleaving. An action that is not enabled changes nothing; so each such machine also comes with theorems that its calls
get through: one left to itself does what it is for, and from every reachable state a step brings a call nearer to its
return.

## Where the code falls short of what it suggests

Each of these is stated exactly: the good property holds if and only if the condition given does.

* Endpoints leak when a successful event names an instance twice: the second mention calls the factory again and
  overwrites the map entry without closing the first endpoint. No factory leaks exactly when no successful event
  repeats an instance (`EndpointRuns.LifecycleExactly`, `EndpointRuns.LeakFreeExactly`). Nothing else goes wrong even
  then: whatever the events, nothing is closed twice, while held, or without a closer (`EndpointRuns.SafetyHolds`).
* For the same reason the exposed list can hold an endpoint twice: it is the cache's endpoints in ascending key order,
  for every factory, exactly when the cache was last refreshed with a list that repeats no instance
  (`EndpointRuns.ExposedInKeyOrderExactly`).
* For the same reason dropping repeated events can be noticed, exactly when a dropped success event repeats an
  instance (`Suppression.SuppressionExactly`).
* A channel hears an event twice in a row exactly when it is registered again while up to date
  (`InstanceCaching.StutterExactly`); `InstanceCaching.RegisteredTwice` is such a run.
* metrics/internal/lv/labelvalues.go:13 appends to the receiver. Of two lists made from one parent the first stays
  what it was exactly if one of the two had to move to new storage, or they agree as far as both go
  (`LabelValues.Siblings`); `LabelValues.OverwrittenSibling` makes two that do not.
* metrics/internal/lv/space.go:44-45 calls what `Reset` returns an immutable copy. It is one exactly when no observer
  that looked up its node before the reset has yet to append (`SpaceConcurrency.DetachedIsFinalExactly`);
  `SpaceConcurrency.LateObservation` is a run in which it changes after it was returned.
* Gauge walks hold read locks only, so two may overlap and write their lines in the wrong order. Once everything is at
  rest, the last line shows the current value exactly if no store came between that line's load and its writing
  (`GaugeConcurrency.LastLineExactly`); it does if no walk loads while another still holds a loaded value
  (`GaugeConcurrency.ApartWalksEndCurrent`); `GaugeConcurrency.OverlappingWalks` is a run in which it does not.
* A writer's refusal ends the walk of one gauge trie, not the pass: `WriteTo` drops the result of `root.walk`
  (metrics/dogstatsd/dogstatsd.go:159-168). For a writer that judges each line by itself, a trie is written completely
  in every map order exactly if each pending line it refuses has all other pending series of the trie above it
  (`GaugePasses.TrieCompleteExactly`). For any writer, a pass goes on after a refusal exactly if something is pending
  under a name of which nothing was written so far (`Gauges.FollowsExactly`, `Gauges.TwoRootsAskedTwice`).
* The connection manager keeps its books exactly when no error is put on the first connection before the loop has
  received it from its own channel; otherwise that connection is closed and then served again
  (`ConnManager.StartupExactly`, `ConnManager.EarlyErrorServesClosed`).
* Round-robin picks stay fair when the 64-bit counter wraps exactly when the number of endpoints divides 2^64
  (`RoundRobin.FairAcrossTheWrapExactly`).

## Assumptions

* An endpoint is known by the number of the factory call that made it; whether it comes with a closer is part of that
  call's answer. A factory is any function of the instance and of the number of calls made before.
* Clocks, jitter, dial results, network answers and the choices of the scheduler are inputs. Clock readings do not go
  back.
* The caller of `instance.Cache.Update` gives its slice up, since the cache keeps it and sorts it in place.
* `reflect.DeepEqual` tells a nil slice from an empty one; so does `Option<seq<string>>`.
* Strings are ordered by character code. `real` stands for float64; durations are whole nanoseconds.
* Go's maps are walked in an order nobody chose; loops over map keys pick any remaining key.

## Model

| member | source | states |
|---|---|---|
| Order.SortStrings | sd/endpoint_cache.go:74 | sorting in place leaves the sorted permutation, which `SortedIsUnique` shows to be the only one |
| Order.SortedIsUnique | sd/internal/instance/cache.go:32 | two sorted permutations of one list are equal, so events with permuted instances compare equal once sorted |
| Order.LessExactly | sd/endpoint_cache.go:74 | one string is below another iff after some common beginning it ends or goes on with the smaller character |
| Order.SortNoDup | sd/endpoint_cache.go:74 | a list is free of repeats iff its sorted form is strictly ascending |
| EndpointCaching.EndpointCache.Update | sd/endpoint_cache.go:48-70 | the new abstract state: refreshed and error cleared on success; on an error, only the first since a success is kept and sets the deadline, and only if invalidation is on |
| EndpointCaching.EndpointCache.UpdateCache | sd/endpoint_cache.go:72-115 | map, exposed list, factory calls and closed endpoints are those of one refresh |
| EndpointCaching.EndpointCache.AcquireEach | sd/endpoint_cache.go:76-93 | live instances move over untouched, others are asked of the factory in list order, refused ones are skipped |
| EndpointCaching.EndpointCache.CloseLeftovers | sd/endpoint_cache.go:95-100 | in whatever map order, exactly the leftover endpoints with a closer are closed, each once |
| EndpointCaching.EndpointCache.ListEndpoints | sd/endpoint_cache.go:102-113 | a fresh slice holding the endpoints of the listed instances that are present, in list order |
| EndpointCaching.EndpointCache.Endpoints | sd/endpoint_cache.go:119-142 | undisturbed, it serves the current list, or past the deadline releases everything and reports the error |
| EndpointCaching.AcquireSound | sd/endpoint_cache.go:76-93 | whatever the list, every map entry stays an endpoint the factory made for its key with that closer, so no two keys share one; the leftovers are exactly the live instances not listed; nothing is closed while acquiring |
| EndpointCaching.UpdateSound | sd/endpoint_cache.go:48-70 | after every update, repeated instances included, every map entry is an endpoint the factory made for its key |
| EndpointRuns.RefreshKeepsAndAdds | sd/endpoint_cache.go:72-115 | after a success the keys are exactly the listed instances that were live or accepted; survivors keep the very same endpoint; each new one costs one factory call, in ascending order |
| EndpointRuns.SafetyHolds | sd/endpoint_cache.go:48-142 | over every run, repeated instances included, nothing is closed twice, while held, without a closer, or before it was made |
| EndpointRuns.RefreshOwned | sd/endpoint_cache.go:72-115 | a refresh by a list without repeats leaves each endpoint ever made either live under its instance, or retired with its closer called once |
| EndpointRuns.LifecycleHolds | sd/endpoint_cache.go:48-142 | over every run without repeated instances no endpoint leaks, is closed twice or is closed while served |
| EndpointRuns.RepeatLeaks | sd/endpoint_cache.go:80-92 | after any run with a repeated instance some factory has made an endpoint that is neither held nor closed, for good |
| EndpointRuns.LifecycleExactly | sd/endpoint_cache.go:48-142 | the lifecycle holds for every factory iff no successful event repeats an instance |
| EndpointRuns.LeakFreeExactly | sd/endpoint_cache.go:80-100 | every endpoint with a closer that is no longer held has been closed, for every factory, iff no successful event repeats an instance |
| EndpointRuns.ExposedInKeyOrder | sd/endpoint_cache.go:102-118 | after a last refresh without repeats the exposed list is the map's endpoints in ascending key order, whatever came before |
| EndpointRuns.ExposedInKeyOrderExactly | sd/endpoint_cache.go:102-118 | it is so for every factory iff the list of the last refresh repeats no instance |
| EndpointRuns.DeadlineFromHistory | sd/endpoint_cache.go:53-69 | a request fails at time t with error e iff invalidation is on, e is the first error since the last success, and t is at or past its time plus the timeout |
| EndpointRuns.FailureReleasesAll | sd/endpoint_cache.go:140-141 | from any safe state, repeated instances in its past included, a failing request closes everything held that has a closer, once each and nothing else, empties map and list, and reports the stored error |
| EndpointRuns.ServedAreOpen | sd/endpoint_cache.go:119-127 | over every run, repeated instances included, a request that does not fail changes nothing, and whatever it is served is held by the cache and unclosed |
| EndpointRuns.ServedInKeyOrder | sd/endpoint_cache.go:117-127 | after a last refresh without repeats it is served all endpoints of the cache, in ascending order of their instances |
| EndpointConcurrency.CallsAreAtomic | sd/endpoint_cache.go:119-142 | in every interleaving each finished `Endpoints` call answers as one atomic evaluation between its start and finish, and the state is that of the operations one by one, in clock order; the rows of EndpointCalls say that these are the calls made, updates included, those of EndpointProgress that calls finish |
| EndpointCalls.CallsTakeEffectOnce | sd/endpoint_cache.go:48-70 | in every interleaving each thread's calls of `Update` and `Endpoints` are, in order, those that have finished and the one under way: no call is lost and none finishes twice |
| EndpointCalls.FinishedCallsAreInHistory | sd/endpoint_cache.go:48-70 | an update that has returned is an operation with its own event, one that took effect between its start and finish; so is a request |
| EndpointCalls.CallsAreApart | sd/endpoint_cache.go:48-70 | no two finished calls share an operation |
| EndpointCalls.HistoryIsCalls | sd/endpoint_cache.go:119-142 | every operation is that of a finished call, an event that of an update; or a request whose thread is about to return |
| EndpointProgress.AskAlone | sd/endpoint_cache.go:119-142 | from every reachable state with the locks free, a call of `Endpoints` left to itself is answered as the cache answers at the time it last read the clock, past the deadline with the error and everything released, and returns with the locks free |
| EndpointProgress.UpdateAlone | sd/endpoint_cache.go:48-70 | likewise `Update` leaves the cache as its event leaves it, and returns with the locks free |
| EndpointProgress.AlwaysMovesOn | sd/endpoint_cache.go:48-142 | in every reachable state with a call under way, some step brings a call nearer to its return, at most six steps away, and holds no other up |
| EndpointProgress.EveryCallCanFinish | sd/endpoint_cache.go:48-142 | from every reachable state all calls under way can be finished without a new one, after which the locks are free |
| EndpointConcurrency.SafetyInEveryInterleaving | sd/endpoint_cache.go:48-142 | in every interleaving of updates and two-phase reads nothing is closed twice, while held, or without a closer |
| EndpointConcurrency.LifecycleInEveryInterleaving | sd/endpoint_cache.go:48-142 | and without repeated instances none leaks |
| EndpointConcurrency.GapUpdatesAreSafe | sd/endpoint_cache.go:129-141 | a call that releases endpoints does so for an expired error that came after every success before it, those in its lock gap included |
| InstanceCaching.Cache.Update | sd/internal/instance/cache.go:28-39 | the sorted event becomes the state; if that is news, exactly the registered channels are sent it, each in storage that no other message and not the state shares, and otherwise nobody is |
| InstanceCaching.Cache.Broadcast | sd/internal/instance/cache.go:75-80 | every registered channel receives exactly one message with the event's value, in new storage of its own |
| InstanceCaching.Cache.State | sd/internal/instance/cache.go:42-48 | the state by value, in storage of its own |
| InstanceCaching.Cache.Register | sd/internal/instance/cache.go:55-63 | the channel joins and is pushed a copy of the current state in new storage of its own, even if already registered |
| InstanceCaching.Cache.Deregister | sd/internal/instance/cache.go:66-70 | the channel leaves; nothing is sent |
| InstanceCaching.SortInstances | sd/internal/instance/cache.go:32 | the event's own storage is sorted; sorting again would change nothing |
| InstanceCaching.CopyEvent | sd/internal/instance/cache.go:91-102 | an equal event in fresh storage, nil staying nil |
| InstanceCaching.Scribble | sd/internal/instance/cache.go:92-94 | a subscriber that writes what it was given changes neither the cache nor any other message ever sent, to any channel |
| InstanceCaching.UpdateSeen | sd/internal/instance/cache.go:32-38 | however much a subscriber has taken, it finds one more message, the sorted event, iff that is news; those that wait still read as sent |
| InstanceCaching.PermutationIsDropped | sd/internal/instance/cache.go:32-35 | an event that lists the same instances in another order is no news |
| InstanceCaching.SubscribersAgree | sd/internal/instance/cache.go:28-63 | after every operation of every run, a registered channel's last event is the sorted state |
| InstanceCaching.StutterExactly | sd/internal/instance/cache.go:33-35 | a channel is told the same event twice in a row iff it registers while up to date |
| InstanceCaching.RegisteredTwice | sd/internal/instance/cache.go:55-63 | a channel that registers twice in a row hears the same event twice |
| InstanceCaching.RegisteredOnce | sd/internal/instance/cache.go:33-35 | a channel registered once never receives two equal events in a row |
| InstanceCaching.SilentAfterDeregister | sd/internal/instance/cache.go:66-88 | nothing reaches a channel after deregistration until it registers again |
| Suppression.SourceFollows | sd/internal/instance/cache.go:33-38 | the subscriber hears of an event iff it differs, sorted, from the last |
| Suppression.DropsInvisible | sd/endpointer.go:75-79 | fed all events or only those not dropped, the endpoint cache is in the same state, refused factory calls aside, if no dropped success repeats an instance |
| Suppression.SuppressionExactly | sd/internal/instance/cache.go:28-39 | dropping repeated events is invisible for every factory that judges by the instance iff no dropped success event repeats an instance |
| Endpointer.NewEndpointer | sd/endpointer.go:28-41 | the endpointer is subscribed through a channel of its own, on which the source's state waits as sent; its cache is empty |
| Endpointer.DefaultEndpointer.Receive | sd/endpointer.go:75-79 | one turn: the endpoint cache goes from where its history leads to where the history with the next event leads, the event as it was when sent; messages still waiting read as sent |
| Endpointer.DefaultEndpointer.Endpoints | sd/endpointer.go:88-90 | a request is answered as by the endpoint cache, and joins the history |
| Endpointer.Publish | sd/internal/instance/cache.go:28-39 | an update of the source puts at most one message, the sorted event, behind those that wait for the endpointer, iff it is news |
| Endpointer.TakeOne | sd/endpointer.go:75-79 | taking the next message tells the endpoint cache that event as it was when sent, and leaves the source alone |
| Endpointer.Served | sd/endpointer.go:28-90 | for every order of source updates, takes and requests, however far the goroutine lags: the endpoint cache is where its history leads, and the events of the history are, in order, the first of those sent |
| Endpointer.SentAndHeard | sd/endpointer.go:75-79 | what is sent begins with the state at the subscription and ends with the source's state, sorted and without equal neighbours; what was heard is a prefix of it |
| Endpointer.TurnsAreTold | sd/endpointer.go:75-90 | for every order of turns, what the endpoint cache was told and asked, from the first event on, is what the two-cache model tells and asks for some list of updates and requests |
| Endpointer.PromptlyTold | sd/endpointer.go:75-90 | a goroutine that takes each message at once is told every event that is not dropped, in its place between the requests |
| Endpointer.ToldLeads | sd/endpointer.go:75-90 | telling the cache the events that are not dropped, sorted, leads to the filtered state of the two-cache model |
| Endpointer.Pipeline | sd/endpointer.go:28-90 | end to end, for every order of turns: with what it was told and asked, dropped events left out, the endpoint cache is in the filtered state, and in the state all events lead to (refused factory calls aside) if no dropped success repeats an instance and the factory judges by the instance |
| Endpointer.DefaultEndpointer.Close | sd/endpointer.go:82-85 | deregistered and closed; no registered channel is closed |
| LabelValues.With | metrics/internal/lv/labelvalues.go:9-14 | on lists as values: the receiver's labels, then the new ones, then "unknown" if those are odd in number; an even list stays even, and names the series reached by going on from the receiver's |
| LabelValues.WithOnSlice | metrics/internal/lv/labelvalues.go:9-14 | on slices: the same list, written into the receiver's spare cells if it fits and into new storage if not; the receiver's own cells keep their contents |
| LabelValues.Siblings | metrics/internal/lv/labelvalues.go:13 | of two lists made from one parent the second is right, and the first still is iff one had to move or they agree as far as both go |
| LabelValues.OverwrittenSibling | metrics/internal/lv/labelvalues.go:13 | an empty parent with room for a pair: the second list overwrites the first |
| LabelValues.OddByLength | metrics/internal/lv/space.go:82-89 | peeling pairs off panics iff the number of labels is odd |
| LabelValues.TargetOfLabels | metrics/internal/lv/space.go:10-12 | name and label list identify a series: reading them off leads back to it |
| LabelValues.TargetOfAppend | metrics/internal/lv/space.go:79-99 | descending by a concatenation is descending by its parts |
| LabelValues.Append | metrics/internal/lv/space.go:136 | `append` writes into shared storage if there is room and moves otherwise; only the appended cells change |
| Spaces.Node.Observe | metrics/internal/lv/space.go:79-99 | exactly the target series gains the value at its end; an odd list panics and changes no series |
| Spaces.Node.Add | metrics/internal/lv/space.go:101-127 | exactly the target series gains a value at its end: its last value plus the delta, or the delta if empty |
| Spaces.Node.ChildFor | metrics/internal/lv/space.go:89-97 | the child of a pair is found or made once, and no series changes |
| Spaces.Node.Walk | metrics/internal/lv/space.go:129-141 | from a node, every non-empty series at or below it is shown once, with name, labels and values, until `fn` refuses; only cells past the given length of the shared buffer are written |
| Spaces.Node.WalkChild | metrics/internal/lv/space.go:135-139 | the same for one child, the parent's labels in the buffer left intact |
| Spaces.Space.NodeFor | metrics/internal/lv/space.go:54-66 | the root of a name is found or made once, and no series changes |
| Spaces.Space.Observe | metrics/internal/lv/space.go:20-22 | the space refines the flat map from series to values: its history grows by this observation, unless it panicked |
| Spaces.Space.Add | metrics/internal/lv/space.go:27-29 | likewise for additions |
| Spaces.Space.Reset | metrics/internal/lv/space.go:46-52 | the new space holds everything the old one recorded, the old one nothing |
| Spaces.Space.Walk | metrics/internal/lv/space.go:33-42 | in any map order each non-empty series is shown exactly once with its exact path and values, and after a refusal there are no more calls |
| Spaces.ResetConserves | metrics/internal/lv/space.go:46-52 | series by series, what was detached followed by what is held is everything appended, in order |
| Spaces.LastValueExactly | metrics/internal/lv/space.go:101-111 | after any history, the last value of a series is that of its last observation, or zero, plus the sum of the deltas added since; it is empty iff nothing came since the last reset |
| Spaces.RecordedGrows | metrics/internal/lv/space.go:79-111 | an operation adds one value at the end of its own series and leaves the others alone; a reset empties all |
| SpaceConcurrency.ResetConservesConcurrently | metrics/internal/lv/space.go:20-66 | in every interleaving of observations, additions and resets the name tables of all spaces together lead to each recorded value exactly once, under its own name |
| SpaceConcurrency.SeriesKeepTheirOrder | metrics/internal/lv/space.go:79-127 | in every interleaving each series below a root holds what a sequential space would after the calls that appended there, each addition going on from the last value before it |
| SpaceConcurrency.LastValueBelowRoot | metrics/internal/lv/space.go:101-111 | so in every interleaving the last value of a series below a root is that of its last observation there, or zero, plus the deltas added since |
| SpaceConcurrency.FindsInTheLiveSpace | metrics/internal/lv/space.go:54-66 | in every reachable state a thread can begin a call, which finds a root of the live space under its own name |
| SpaceConcurrency.AppendsWhereItLooked | metrics/internal/lv/space.go:79-111 | and then append there whatever else is under way: its series gains the value, or the last value plus the delta, and no other series changes |
| SpaceConcurrency.CallsAppendOnce | metrics/internal/lv/space.go:20-29 | the calls begun are those that have appended, each once, and those yet to |
| SpaceConcurrency.DetachedIsFinalExactly | metrics/internal/lv/space.go:44-52 | what a detached space's name table leads to never changes again iff no observer that found its root is still to append |
| SpaceConcurrency.LateObservation | metrics/internal/lv/space.go:44-52 | an observer that found its root before the reset: the detached space gains a value after it was returned |
| Gauges.Gauge.Read | metrics/dogstatsd/dogstatsd.go:402-405 | the value, whether it was written since the last read, and the flag lowered |
| Gauges.GaugeNode.AddGauge | metrics/dogstatsd/dogstatsd.go:357-379 | the gauge already at the target series, else the given one; no other series changes; an odd list panics |
| Gauges.GaugeNode.ChildFor | metrics/dogstatsd/dogstatsd.go:369-378 | the child of a pair is found or made once, and no series changes |
| Gauges.GaugeNode.Emit | metrics/dogstatsd/dogstatsd.go:384-389 | the node's own gauge is emitted iff it is pending, and then is no longer |
| Gauges.GaugeNode.Walk | metrics/dogstatsd/dogstatsd.go:381-396 | every written gauge at or below the node is emitted once and lowered, others untouched, until `fn` refuses |
| Gauges.Dogstatsd.NewGauge | metrics/dogstatsd/dogstatsd.go:82-91 | one name always yields the same gauge; a new one is at zero and not flagged; no other series changes |
| Gauges.Dogstatsd.With | metrics/dogstatsd/dogstatsd.go:283-290 | one label path always yields the same gauge; a new one starts from the receiver's value, not flagged |
| Gauges.Dogstatsd.WriteGauges | metrics/dogstatsd/dogstatsd.go:158-169 | a pass emits gauges written since the last one, once each and trie by trie, at their values; a refused line is the last of its name; a trie in which none is refused is emitted completely; those emitted are no longer pending |
| GaugePasses.RefusedLeavesLoseNothing | metrics/dogstatsd/dogstatsd.go:158-169 | if each pending line the writer refuses has all other pending series of its name above it, every pass writes everything pending, in whatever map order |
| GaugePasses.TrieCompleteExactly | metrics/dogstatsd/dogstatsd.go:381-396 | one trie is written completely in every map order iff that holds of its lines |
| Gauges.FollowsExactly | metrics/dogstatsd/dogstatsd.go:159-168 | lines follow a refusal iff something is pending under a name of which nothing was written so far |
| Gauges.TwoRootsAskedTwice | metrics/dogstatsd/dogstatsd.go:159-168 | two pending roots and a writer that refuses everything: two lines are still attempted |
| Gauges.LabelsOfTarget | metrics/dogstatsd/dogstatsd.go:357-379 | the series a label list leads to carries exactly those labels |
| GaugeHistories.ValueExactly | metrics/generic/generic.go:106-122 | after any calls on any gauges, the value of a gauge is what it was last set to, or began with, plus the deltas added since; it begins with zero if asked for by name, with its parent's value of that moment if derived |
| GaugeHistories.EveryGaugeBegins | metrics/dogstatsd/dogstatsd.go:82-91 | every gauge began by one of these calls, and shows that value as long as it was not written |
| GaugeHistories.Session | metrics/dogstatsd/dogstatsd.go:283-302 | any calls on a new object lead it to exactly these gauges, at these values, those written flagged |
| GaugeHistories.Report | metrics/dogstatsd/dogstatsd.go:158-169 | a pass after them has pending exactly the gauges written, and each line shows its gauge's value by that rule |
| GaugeConcurrency.WritesAreNotLost | metrics/dogstatsd/dogstatsd.go:293-302 | in every interleaving a returned write is shown, itself or a newer one, or a walk has lowered the flag for it or loaded it and is about to show it, or the flag is up |
| GaugeConcurrency.RestingGaugeIsReported | metrics/dogstatsd/dogstatsd.go:381-405 | when nothing is under way and the flag is down, some line has shown the current value |
| GaugeConcurrency.LastLineExactly | metrics/dogstatsd/dogstatsd.go:381-405 | then the last line shows the current value iff no store came between its load and its writing |
| GaugeConcurrency.ApartWalksEndCurrent | metrics/dogstatsd/dogstatsd.go:381-405 | it does if no walk loads while another has yet to write what it loaded |
| GaugeConcurrency.OverlappingWalks | metrics/dogstatsd/dogstatsd.go:384-389 | two overlapping walks after which the last line shows the older value |
| GaugeConcurrency.LinesArePaidFor | metrics/dogstatsd/dogstatsd.go:402-405 | a gauge is never shown more often than it was touched, and only at values it had |
| GaugeConcurrency.UndisturbedWalk | metrics/dogstatsd/dogstatsd.go:381-405 | a walk alone shows the current value iff the flag is up, and lowers it |
| GaugeConcurrency.ValueIsLastSetPlusAdded | metrics/dogstatsd/dogstatsd.go:293-302 | in every interleaving the value is that of the last `Set` stored, or the one at the start, plus the deltas stored since |
| GaugeConcurrency.UndisturbedWrite | metrics/dogstatsd/dogstatsd.go:293-302 | a write alone stores the value set, or the current one plus the delta, raises the flag, and returns |
| GaugeConcurrency.AlwaysMovesOn | metrics/dogstatsd/dogstatsd.go:381-405 | a thread inside a write or a visit can always take its next step, and is out after two |
| Generic.CallsAreAtomic | metrics/generic/generic.go:43-122 | in every interleaving value and results are those of the calls one at a time, in order of effect |
| Generic.CounterConserves | metrics/generic/generic.go:43-75 | value plus everything `ValueReset` returned equals everything added |
| Generic.GaugeIsLastSetPlusAdded | metrics/generic/generic.go:106-122 | the value is that of the last `Set` to take effect plus the deltas since |
| Generic.CallsTakeEffectOnce | metrics/generic/generic.go:43-54 | each call takes effect exactly once, in its thread's order, unless still under way |
| Generic.FailureMeansInterference | metrics/generic/generic.go:50-52 | a failing swap means that another thread's call changed the value since the load |
| Generic.FailuresAreBounded | metrics/generic/generic.go:43-75 | with n threads there are at most n - 1 failed swaps for each call that took effect |
| Generic.UndisturbedCall | metrics/generic/generic.go:43-122 | a call alone adds its delta, returns the value and leaves zero, or leaves the value given |
| Generic.CallsFinishAlone | metrics/generic/generic.go:43-75 | in every reachable state a thread left to itself finishes its call in three steps, a failed swap included |
| Generic.EveryCallCanFinish | metrics/generic/generic.go:43-122 | from every reachable state all calls under way can be finished, each having taken effect once |
| Generic.SimpleHistogram.Observe | metrics/generic/generic.go:229-235 | the running average stays the exact mean of everything observed |
| Generic.SimpleHistogram.ApproximateMovingAverage | metrics/generic/generic.go:238-242 | it returns sum over count |
| Backoff.Exponential | util/conn/manager.go:140-149 | twice the duration times the jitter, rounded down, or a minute if that is less |
| Backoff.NextBounds | util/conn/manager.go:137-149 | up to a minute a wait never shrinks, at most triples and never passes a minute |
| Backoff.AtLeastTwice | util/conn/manager.go:137-149 | a jitter of at least one at least doubles a wait, up to a minute |
| ConnManager.Loop | util/conn/manager.go:85-126 | the loop's own variables, the wait its timer is set to and the connections it closes follow the step machine for every list of events |
| ConnManager.NeverStranded | util/conn/manager.go:85-126 | from the very start the manager has a connection, a timer or a result to come; dials are paid for; the backoff stays between a second and min(3^k seconds, a minute) after k failures |
| ConnManager.AlwaysRecovering | util/conn/manager.go:99-113 | without a connection some step of its own brings one closer, at most six steps away |
| ConnManager.StartupExactly | util/conn/manager.go:87-96 | once the first result is received everything is accounted for iff no error was put before |
| ConnManager.OneToken | util/conn/manager.go:98-124 | after a quiet start exactly one of connection, timer and outstanding result exists, a dialler finds room in the channel, and each dial is paid for by one failure or one error |
| ConnManager.ConnectionsAreClosedOnce | util/conn/manager.go:117-122 | after a quiet start no connection is leaked, closed twice or served once closed |
| ConnManager.EarlyErrorServesClosed | util/conn/manager.go:87-96 | an error put too soon: the first connection is closed and then current again |
| ConnManager.BackoffGrows | util/conn/manager.go:104-113 | between successes the backoff only grows |
| ConnManager.BackoffAfterFailures | util/conn/manager.go:104-113 | after k failures in a row the manager waits at most 3^k seconds, and at least 2^k if no jitter shortened a wait, or a minute |
| ConnManager.EachEventExactly | util/conn/manager.go:98-124 | after every run: a failed dial sets the timer to the doubled wait, a dial that worked is served and ends the waiting, an error closes the current connection and dials at once; nothing else does |
| RoundRobin.Balancer.Endpoint | sd/lb/round_robin.go:23-34 | the pick is at the ticket modulo the number of endpoints; errors and empty lists spend no ticket; the counter wraps at 2^64 |
| RoundRobin.PicksInARow | sd/lb/round_robin.go:31-33 | the i-th pick in a row uses the ticket i places on, modulo 2^64 |
| RoundRobin.Fair | sd/lb/round_robin.go:31-33 | without a wrap, k picks take each of n indices k / n times, rounded down or up |
| RoundRobin.FairAcrossTheWrapExactly | sd/lb/round_robin.go:31-33 | from every counter value the next n picks take every index once iff n divides 2^64 |
| RoundRobin.WrapSkips | sd/lb/round_robin.go:31-33 | otherwise some n picks in a row leave the last index out |
| Retry.RetryWithCallback | sd/lb/retry.go:72-116 | the outcome, declaratively: all arrivals but the last are failures the callback accepts, and the last decides |
| Retry.EndsOnce | sd/lb/retry.go:96-114 | arrivals determine the outcome and the attempt that ends it |
| Retry.GivesUpExactly | sd/lb/retry.go:54-112 | only a callback makes it give up: it accepts every error but the last, refuses the last, and that or its replacement is reported; without one, failures go on being retried |
| Retry.TotalFailure | sd/lb/retry.go:48-52 | total failure takes exactly max(1, max) attempts and lists every error in order, the last as final |
| Retry.SucceedsExactly | sd/lb/retry.go:44-46 | undisturbed, it succeeds iff one of the max(1, max) attempts does, with the first answer |
| Retry.OneHealthyIsEnough | sd/lb/retry.go:81-115 | over round robin, one healthy endpoint among n and at least n attempts give success within n |
| Retry.FewerMayMiss | sd/lb/retry.go:48-52 | with fewer than n attempts some ticket misses the healthy endpoint every time |
| RetryConcurrency.SendsNeverBlock | sd/lb/retry.go:72-94 | at most one attempt is outstanding and no attempt ever blocks on its channel, whatever the deadline does |
| RetryConcurrency.RefinesTheLoop | sd/lb/retry.go:96-114 | with goroutines and channels the caller returns what the sequential loop returns for the arrivals taken |
| RetryConcurrency.LoopsAreRuns | sd/lb/retry.go:81-115 | and whatever the sequential loop returns, for any arrivals, some run of caller and goroutines returns |
| RetryConcurrency.NextArrival | sd/lb/retry.go:81-115 | until the caller returns, its next arrival is at most three steps away, whatever the attempt comes to |
| EurekaRegistrar.TraceIsSessions | sd/eureka/registrar.go:59-115 | the calls on the connection are sessions: register, heartbeats each followed by a re-registration iff not found, deregister |
| EurekaRegistrar.AtMostOneLoop | sd/eureka/registrar.go:71-72 | at most one renewal loop is alive |
| EurekaRegistrar.NoHeartbeatAfterDeregister | sd/eureka/registrar.go:76-88 | between a returned Deregister and the next registration there is no heartbeat |
| EurekaRegistrar.HandshakeCompletes | sd/eureka/registrar.go:84-87 | a deregistering caller waits only for a loop that listens on its channel or is about to close it |
| EurekaRegistrar.ReturnsMeanWhatTheySay | sd/eureka/registrar.go:59-88 | Register returns with a renewing loop in place, Deregister with every loop gone |
| EurekaRegistrar.ReregistersOnlyIfNotFound | sd/eureka/registrar.go:128-143 | a re-registration comes only when the last heartbeat was answered with status 404 |
| EurekaRegistrar.NotFoundIsFollowedUp | sd/eureka/registrar.go:133-143 | and after such an answer it is the next thing sent |
| EurekaRegistrar.AlwaysReturning | sd/eureka/registrar.go:59-115 | in every reachable state with the mutex held, some step of its holder or of the loop brings the holder nearer to its return |
| EurekaRegistrar.CallsReturn | sd/eureka/registrar.go:59-115 | so it can always return within eight steps, from Register with a renewing loop in place, from Deregister with every loop gone |
| EurekaRegistrar.HeartbeatsGoOn | sd/eureka/registrar.go:98-115 | as long as a registration stands, the loop can send its next heartbeat within four steps, after registering again if it has to |
| ConsulInstancer.Loop | sd/consul/instancer.go:63-95 | turn by turn, the index waited for, the sleeps and what is published, until stopped |
| ConsulInstancer.PublishesExactly | sd/consul/instancer.go:72-93 | instances are published iff the index is non-zero and not below the one waited for, errors iff the query failed |
| ConsulInstancer.SleepsExactly | sd/consul/instancer.go:75-93 | a turn whose answer is a failure, or bears no index or one below the index waited for, begins with a sleep, its only one, then publishes the error if there is one and nothing otherwise; a sound answer is published at once |
| ConsulInstancer.QueriesFollow | sd/consul/instancer.go:70-91 | a query waits for the index of the last sound answer, or for any after an answer that went back |
| ConsulInstancer.IndexGrows | sd/consul/instancer.go:84-90 | the index waited for never falls unless an answer goes back behind it |
| ConsulInstancer.ResetThenPublish | sd/consul/instancer.go:84-93 | after such an answer the next one without error and with an index is published |
| ConsulInstancer.DelaysAreBounded | sd/consul/instancer.go:75-88 | after k faults in a row the sleep is between 10 ms and min(3^k times that, a minute) |
| ConsulInstancer.DelaysDouble | sd/consul/instancer.go:75-92 | and at least min(2^k times that, a minute) if no jitter shortened a wait |
| ConsulInstancer.DelaysGrow | sd/consul/instancer.go:75-92 | between successes sleeps never get shorter |
| ConsulInstancer.FilterEntries | sd/consul/instancer.go:156-175 | exactly the entries that bear all tags, each as often as listed and in list order |
| ConsulInstancer.Resolve | sd/consul/instancer.go:97-187 | the instances are those of exactly the entries that bear all tags: the service's address, or the node's if it has none, a colon and the port in decimal |

## Left out

- ConnManager.EachEventExactly: the wait a timer is set to is recorded, but time does not pass: a timer may fire at any step.
- Registry clients, watches and transports (etcd, ZooKeeper, DNS, the Consul and Eureka calls, HTTP, gRPC): their answers are inputs.
- sd/etcd/registrar.go: its loop returns with the mutex held on one path and reads a field that may have been cleared, so the session property of the Eureka registrar does not hold there.
- metrics/influxstatsd: its gauge trie repeats the one of dogstatsd. Formatting of metric lines, sampling and rate maps are output plumbing.
- Float rounding, infinities, NaN and negative zero; the quality of random numbers; the streaming histogram, which is not part of this model.
- Generic.CounterConserves: does not cover `Counter.With`, which copies the current value into a second counter.
- Generic.SimpleHistogram.Observe: does not model the wrap of its 64-bit count, after which the average is no number.
- LabelValues.With: lists are values here, and in the tries and metrics that use them; `LabelValues.Siblings` says when that is justified.
- Backoff.Exponential: does not model the overflow of doubling a duration beyond 2^62 nanoseconds; callers stay at or below a minute.
- Spaces.Node.Observe: a panic is a result; the locks it releases are not modelled in the sequential class.
- InstanceCaching.Cache.Update: a send on an unbuffered channel is a delivery; waiting for a receiver, and deadlock with one that calls back, are not modelled.
- Endpointer.DefaultEndpointer.Receive: one turn of the goroutine's loop; it may come any time after the message was sent, but is not run beside the sender.
- Endpointer.Served: the goroutine may lag by any number of messages; the source's send, which waits for it, allows fewer.
- InstanceCaching.Cache.Register: a channel is subscribed to one cache only, and is not used for anything else.
- Endpointer.DefaultEndpointer.Close: live endpoints are not closed, as in the code.
- Retry.RetryWithCallback: an infinite loop over a finite list of arrivals; `Pending` when they run out. The callback is a function of attempt number and error. A nil balancer, which panics, is not modelled, nor is the text of `RetryError`.
- EurekaRegistrar.TraceIsSessions: a heartbeat that never returns is an action that never comes; the ticker's period is not modelled.
- ConsulInstancer.Loop: the query's own goroutine and its two channels are one answer; `NewInstancer`'s first query, published whatever its index, comes before the loop.
- ConnManager.NeverStranded: `Take` is a read of the current connection and `Write` a take followed by a put; neither is a step of its own.
- Loops over shared words and selects (`Generic`, `GaugeConcurrency`, `SpaceConcurrency`, `EndpointConcurrency`, `RetryConcurrency`, `EurekaRegistrar`) are step machines on values, not classes: what matters there is how steps interleave.
- Stop, options and log output: straight-line code.
