# Verified models of the repository's services

This project models the self-contained algorithms and protocols of the repository in Dafny and
proves what they promise. Each mutex-guarded block and each Redis script is one atomic step.
`dafny verify dfyconfig.toml` checks everything.

| files | what they model |
|---|---|
| `KalmanMatrix.dfy`, `KalmanFilter.dfy`, `KalmanRuns.dfy` | the position filter of the tracking service: matrix equations, the in-place object that computes them entry by entry, and the invariants of every run |
| `Matcher.dfy` | greedy order-driver matching whose scores move between rounds |
| `Sorting.dfy`, `HashRing.dfy`, `KeyValueStore.dfy` | the consistent-hash ring and the sharded store on top of it |
| `FlashSale.dfy` | bucketed stock, changed by interleaved atomic scripts |
| `Autocomplete.dfy` | the trie against a frequency map |
| `WebCrawler.dfy` | the crawl frontier with three workers and bounded channels |
| `KeyedRuns.dfy`, `SlidingWindow.dfy`, `TokenBucket.dfy`, `FixedWindow.dfy` | the rate limiters over whole runs |
| `Rounding.dfy`, `PromoMoney.dfy`, `PromoResolver.dfy`, `PromoConditions.dfy` | promotions: money under rounding, the choice of rules, and condition trees with their JSON form |
| `FanOut.dfy` | in-order delivery to the subscribers of an order |
| `Elasticity.dfy` | log-log regression over a bounded window |
| `Snowflake.dfy` | 64-bit ids from timestamp, worker and sequence |
| `Accuracy.dfy`, `Imputation.dfy` | the rolling forecast-accuracy buffer and the filling in of stockouts |
| `Saga.dfy`, `Checkout.dfy` | the saga orchestrator and the checkout pipeline |
| `Batcher.dfy`, `CircuitBreaker.dfy` | order batching and the circuit breaker |
| `Collections.dfy`, `MachineInts.dfy`, `Reals.dfy` | shared: optional values, sequences and sets, machine and real arithmetic |

`float64` is modelled by `real`, `time.Now` by clock readings passed in, the order of a Go map by an
arbitrary choice, and CRC32, logarithms, distances, case folding and clock texts by arbitrary
functions. 64-bit integers are written out where wrap-around can matter (ids, order totals) and
unbounded elsewhere.

Where several goroutines share state (stock, crawler, fan-out, circuit breaker) the model is a
transition system: `Enabled` says when a step can be taken, `Step` what it does, and the results are
about every legal sequence of steps. Objects that are updated in place are classes whose methods are
proved against functions on values.

Where code and comments differ, the model follows the code:

- services/dispatch-service/service/matcher.go:69-71 gives priority 1 the largest bonus; the code lowers
  the score with every level above 1, so with a positive weight priority 1 gets the smallest one
  (`MostUrgentFavouredIff`).
- pkg/kit/circuitbreaker/circuitbreaker.go:20 promises one probe in the half-open state; overlapping
  callers are all let through (`ManyProbes`). The promise holds exactly when no call begins while the
  circuit is half-open (`OneProbeIff`), as with one caller at a time (`SequentialProbes`). A failed
  probe opens the circuit again exactly when the failures since the last success reach the threshold
  (`FailedProbeReopensIff`, `LateSuccess`), and reaching it is enough: it need not be exceeded.
- services/promo-engine/model/model.go:42-58 accepts any percentage and cashback; the resolver's amounts
  make up every cart exactly for the effects that `AlwaysBalancedIff` names.
- services/tracking-service/service/fanout.go:48-49 calls newer positions more valuable than older
  ones; what is kept are exactly the events that found room when they were handed over, so a full
  buffer keeps the older ones (`KeepsWhatFoundRoom`, `KeptIffRoom`, `FullBufferKeepsOldest`). A newer
  event is kept if and only if the buffer is not full at that moment.
- services/promo-engine/model/model.go:251 limits the rules stacked within a group. A named group has one
  rule applied (`OnePerGroup`); outside the groups a rule's limit does not stop the rules after it. The
  limits are kept exactly when no ungrouped stackable rule with a limit can come before one whose limit
  is higher or absent (`LimitsKeptIff`, `OverrunHappens`).
- services/forecasting-service/service/forecasting.go:276 speaks of surrounding non-zero values; only
  positive ones count, which is the same exactly when no run of two or more zeros has a negative value
  beside it (`AsDescribedIff`, `NegativeNeighbourIgnored`).
- services/flash-sale/service.go:69 probes 10 buckets, and services/flash-sale/store.go:424 sets a product
  up with any number: a one-unit reserve fails only when the product is sold out exactly when all buckets
  are probed or the stock is no more than the probes (`OneUnitFailsIffSoldOut`, `Draining`).
- services/tracking-service/service/kalman.go accepts a negative noise factor, for which the
  covariance does not stay positive definite (`DefiniteOnEveryRunIff`).
- services/flash-sale/store.go:424-435 divides any stock into shares; those of a negative stock need not
  add up to it (`SharesAreFair`).

## Model

| member | source | states |
|---|---|---|
| `KalmanRuns.CovarianceOnEveryRun` | services/tracking-service/service/kalman.go:85-244 | In every state that any sequence of updates reaches from a filter with q >= 0, P is symmetric and positive definite, all cross-axis entries are 0 and both axes have equal entries; for whatever is measured next the determinant that is inverted is at least R^2 >= 25, so its guard is inert, and both position variances fall strictly below their predictions and below R |
| `KalmanRuns.DefiniteOnEveryRunIff` | services/tracking-service/service/kalman.go:43-56 | P stays positive definite on every run if and only if q is not negative |
| `KalmanRuns.NegativeNoiseBreaks` | services/tracking-service/service/kalman.go:43-56 | For every negative q there are two measurements after which P is not positive definite |
| `KalmanRuns.RunsStayDecoupled` | services/tracking-service/service/kalman.go:85-244 | Every reachable covariance is that of two identical independent axes, by induction over the measurements |
| `KalmanRuns.TwoIndependentFilters` | services/tracking-service/service/kalman.go:96-143 | On every run the 4-state filter agrees with two separate 2-state filters fed with the latitudes and the longitudes |
| `KalmanRuns.SmoothedBetweenPredictedAndMeasured` | services/tracking-service/service/kalman.go:136-156 | On every run each smoothed coordinate lies strictly between the predicted and the measured one, or equals both |
| `KalmanRuns.MeasurementOnEveryRun` | services/tracking-service/service/kalman.go:99-143 | On every run a measurement weighs in with noise r, 5 up to an accuracy of 10 m and half the accuracy beyond: position and velocity of each axis move from the prediction by a/(a+r) and b/(a+r) of the distance to the measurement, a becomes a r/(a+r) and b and c shrink to match |
| `KalmanRuns.PredictionOnEveryRun` | services/tracking-service/service/kalman.go:85-97 | On every run the prediction carries both axes on by exactly the time since the last measurement, 0.1 s when there is none or the clock has not moved on; the first one starts at the measured position with variances 10 and 100, and a noise factor of 0 counts as 1 |
| `KalmanRuns.PredictKeepsDefinite` | services/tracking-service/service/kalman.go:160-211 | The prediction keeps an axis positive definite and never lowers its determinant |
| `KalmanRuns.ShearKeepsDeterminant` | services/tracking-service/service/kalman.go:160-211 | Carrying a covariance forward by the transition alone leaves its determinant unchanged |
| `KalmanRuns.UpdateKeepsDefinite` | services/tracking-service/service/kalman.go:112-143 | The update keeps an axis positive definite, puts the position variance below both the prediction and R, and multiplies the determinant by exactly R/(a+R) |
| `KalmanRuns.DeterminantNeverGuarded` | services/tracking-service/service/kalman.go:117-121 | On any decoupled prior the 2x2 determinant is the square of one axis's S and at least 25, so replacing small determinants never happens |
| `KalmanRuns.MeasuredDecoupled` | services/tracking-service/service/kalman.go:99-143 | An update of a decoupled prior corrects each axis like the 2-state filter and leaves the axes decoupled |
| `KalmanMatrix.InverseIsInverse` | services/tracking-service/service/kalman.go:117-124 | Away from the guard the three entries written out by hand are the inverse of S on both sides |
| `KalmanFilters.Spread` | services/tracking-service/service/kalman.go:160-195 | The ten hand-written entries of the prediction are F P F^T for every symmetric P |
| `KalmanFilters.UpdateRows` | services/tracking-service/service/kalman.go:214-244 | The hand-written rows of the covariance update are (I - K H) P for every gain |
| `KalmanFilters.PredictionSymmetric` | services/tracking-service/service/kalman.go:160-211 | A symmetric covariance stays symmetric under prediction, for every q and dt |
| `KalmanFilters.UpdateSymmetric` | services/tracking-service/service/kalman.go:112-143 | A symmetric covariance stays symmetric under the update, even when the determinant is replaced by the guard |
| `KalmanFilters.KalmanFilter.constructor` | services/tracking-service/service/kalman.go:43-56 | A new filter holds the initial covariance, and noise factor 1 when it was given 0 |
| `KalmanFilters.KalmanFilter.Initialise` | services/tracking-service/service/kalman.go:59-63 | Seeds position and time, with velocity 0, and leaves the covariance alone |
| `KalmanFilters.KalmanFilter.Reset` | services/tracking-service/service/kalman.go:66-75 | Back to the initial covariance and an unseeded state; noise factor and last time are kept |
| `KalmanFilters.KalmanFilter.Predict` | services/tracking-service/service/kalman.go:160-211 | Overwriting the fields entry by entry gives x = F x and P = F P F^T + Q |
| `KalmanFilters.KalmanFilter.CovarianceUpdate` | services/tracking-service/service/kalman.go:214-244 | Overwriting sixteen entries in place gives (I - K H) P of the old P |
| `KalmanFilters.KalmanFilter.Gain` | services/tracking-service/service/kalman.go:111-134 | The gain entries are P H^T S^-1, with the guarded determinant |
| `KalmanFilters.KalmanFilter.Update` | services/tracking-service/service/kalman.go:85-157 | One call replaces the whole state by one predict-update cycle in matrix form, seeding the filter first if need be, and returns the new position, the length of the velocity and its direction as a bearing from 0 up to 360 degrees |
| `Dispatch.GreedyMatcher.Match` | services/dispatch-service/service/matcher.go:89-152 | The assignments are those of a greedy matching of the batch as it was, in pick order with the recorded scores; every driver object ends as those picks leave it, those passed over included, and so does every order object, with the driver of its last pick if the batch lists it more than once |
| `Dispatch.MatchLeaves` | services/dispatch-service/service/matcher.go:120-148 | In the fields: a driver picked has one more order, the time, status assigned and a skip count of 0; any other has its count raised once a round and nothing else changed; an order has the driver of its last pick; an assignment is pending, attempt 1, with the two ids, the score and the time |
| `Dispatch.LargestFloat` | services/dispatch-service/service/matcher.go:104 | The sentinel is (2^53 - 1) 2^971, the largest finite number |
| `Dispatch.Stable` | services/dispatch-service/service/matcher.go:89-152 | For every order and driver one of them has an assignment whose recorded score is at most the score of that pair when matching started |
| `Dispatch.Maximal` | services/dispatch-service/service/matcher.go:103-149 | When all scores are below the sentinel, exactly min(orders, drivers) assignments are made |
| `Dispatch.OneToOne` | services/dispatch-service/service/matcher.go:141-143 | No order and no driver is assigned twice |
| `Dispatch.ScoresBarelyFall` | services/dispatch-service/service/matcher.go:103-149 | The scores of successive picks fall by at most 0.1 W5 |
| `Dispatch.Unique` | services/dispatch-service/service/matcher.go:103-149 | A batch has exactly one greedy matching, ties included |
| `Dispatch.SkippedOnce` | services/dispatch-service/service/matcher.go:74-82 | Being passed over once more lowers a score by exactly 0.1 W5 below a count of five, and by nothing from five on |
| `Dispatch.CreditForSkips` | services/dispatch-service/service/matcher.go:74-82 | A count of n lowers the score that W5 = 0 gives by exactly 0.1 W5 for each of the first five times |
| `Dispatch.MoreSkippedFirst` | services/dispatch-service/service/matcher.go:74-82 | With W5 > 0, of two drivers alike otherwise the one passed over more often scores strictly lower, as long as the other count is below five |
| `Dispatch.LongestWaitingFirst` | services/dispatch-service/service/matcher.go:85-152 | In every greedy run with W5 > 0 no order goes to a driver while a free one, alike otherwise, has been passed over more often, unless the count of the one picked has reached five |
| `Dispatch.KilometreCosts` | services/dispatch-service/service/matcher.go:55-64 | Up to 9.996 km every kilometre costs W1/10 + W2/9.996 |
| `Dispatch.OneMoreOnBoard` | services/dispatch-service/service/matcher.go:66-67 | One more order on board costs W3 divided by the capacity, a capacity below 1 counting as 1 |
| `Dispatch.NothingToPay` | services/dispatch-service/service/matcher.go:54-83 | The score is 0 for an empty driver on the spot, never passed over, and an order of priority 1 or less |
| `Dispatch.LaterScores` | services/dispatch-service/service/matcher.go:74-82 | Over any number of rounds a score never rises; it falls by at most 0.1 W5 a round, and by at most 0.5 W5 in all for a driver whose skip count is not negative |
| `Dispatch.RecordedScores` | services/dispatch-service/service/matcher.go:89-152 | Every recorded score lies between the score its pair had when matching started and 0.5 W5 below it |
| `Dispatch.NearerAndEmptierNeverWorse` | services/dispatch-service/service/matcher.go:54-83 | With non-negative weights a driver no farther away and carrying no more of the same capacity never scores worse |
| `Dispatch.FarIsFar` | services/dispatch-service/service/matcher.go:61-64 | From ten kilometres on distance and arrival time no longer matter |
| `Dispatch.MostUrgentFavouredIff` | services/dispatch-service/service/matcher.go:69-72 | Priority 1 gets the lowest score if and only if the priority weight is not positive: every level above 1 lowers the score by exactly W4/8, and levels below 1 count as 1 |
| `Dispatch.GreedyMatcher.PickBest` | services/dispatch-service/service/matcher.go:104-115 | The first pair in row order of least score below the sentinel, or none exactly when no score is below it |
| `Dispatch.GreedyMatcher.FindBestDriver` | services/dispatch-service/service/matcher.go:156-173 | The first driver of least score for an order, or none with score 0 exactly when no score is below the sentinel |
| `ConsistentHash.HashRing.Get` | pkg/consistenthash/consistenthash.go:49-61 | Binary search with wrap-around finds the node that owns the clockwise successor; None, for the panic, exactly on an empty ring |
| `ConsistentHash.ScanFindsSuccessor` | pkg/consistenthash/consistenthash.go:53-60 | On sorted points the linear scan finds the clockwise successor and nothing else is one |
| `ConsistentHash.AddMovesOnlyToNode` | pkg/consistenthash/consistenthash.go:25-32 | Adding a node changes a position's owner only to that node, and exactly for the positions whose new successor is one of its points, collisions included |
| `ConsistentHash.RemoveForgetsNode` | pkg/consistenthash/consistenthash.go:34-47 | After a removal no position belongs to the node |
| `ConsistentHash.RemoveMovesOnlyFromPoints` | pkg/consistenthash/consistenthash.go:34-47 | A removal leaves every position alone whose successor was not a point of the node |
| `ConsistentHash.RemoveUndoesAddIff` | pkg/consistenthash/consistenthash.go:25-47 | Removing a node just added restores points and owners if and only if none of its points was on the ring before |
| `ConsistentHash.RunsStayWellFormed` | pkg/consistenthash/consistenthash.go:15-47 | Every sequence of additions and removals keeps the points sorted and the point list and the owner map in agreement |
| `ConsistentHash.LastOperationDecides` | pkg/consistenthash/consistenthash.go:25-47 | In every sequence of additions and removals a position belongs to the node of the last operation about it if that is an addition, and to nobody if it is a removal or there is none |
| `ConsistentHash.HashRing.Add` | pkg/consistenthash/consistenthash.go:25-32 | Appending and sorting replaces the ring by the ring with the node's points claimed |
| `ConsistentHash.HashRing.Remove` | pkg/consistenthash/consistenthash.go:34-47 | Deleting, filtering and sorting replaces the ring by the ring without those points |
| `ConsistentHash.PositionsChange` | pkg/consistenthash/consistenthash.go:25-47 | Adding a node gives it exactly the positions crc(i + name) for i below the replica count and adds that many points; removing clears exactly these positions; all others keep their owners |
| `ConsistentHash.ItoaIsDecimal` | pkg/consistenthash/consistenthash.go:27 | The replica numbers are written in decimal digits that read back as the number, so different replicas have different names |
| `Sorting.SortedUnique` | pkg/consistenthash/consistenthash.go:31-46 | A sequence has one sorted arrangement, so the sorting algorithm does not matter |
| `KeyValueStore.ServeFromNew` | services/key-value-store/shard/shard.go:16-41 | From a new manager, for any non-empty list of nodes and any checksum, every sequence of gets, puts and deletes gets the answers of one empty map |
| `KeyValueStore.Manager.ServeAll` | services/key-value-store/shard/shard.go:31-41 | A manager that holds the pairs of a map answers every sequence of requests like that map |
| `KeyValueStore.ReadsLastWrite` | services/key-value-store/storage/memory.go:17-39 | For every sequence of requests: a get answers with the last value put under its key, and not found when the key was deleted since or never put; puts and deletes are acknowledged |
| `KeyValueStore.SameAnswers` | services/key-value-store/shard/shard.go:31-41 | The same for shards as values and any owner function that keeps every key in its place |
| `KeyValueStore.ServeRefines` | services/key-value-store/shard/shard.go:31-41 | One request keeps the shards a partition of the map, with every key only in its owner's shard |
| `KeyValueStore.OtherKeysUnchanged` | services/key-value-store/shard/shard.go:26-41 | A request for one key never changes the answer for another |
| `KeyValueStore.Manager.constructor` | services/key-value-store/shard/shard.go:16-24 | The ring holds the nodes with 150 replicas each, every node with an empty shard of its own; without nodes it is empty |
| `KeyValueStore.Manager.GetShard` | services/key-value-store/shard/shard.go:26-29 | The shard of the ring owner of the key, which exists whenever there is a node |
| `KeyValueStore.Manager.Put` | services/key-value-store/shard/shard.go:35-37 | Stores the value in the shard of the key's owner and changes no other shard |
| `KeyValueStore.Manager.Get` | services/key-value-store/shard/shard.go:31-33 | Answers as the sharded store does, a missing key being an answer of its own |
| `KeyValueStore.Manager.Delete` | services/key-value-store/shard/shard.go:39-41 | Removes the key from its owner's shard and changes no other shard |
| `KeyValueStore.MemoryStore.Get` | services/key-value-store/storage/memory.go:17-25 | The stored value, or not found exactly when the key is absent |
| `FlashSale.EveryRunConserves` | services/flash-sale/store.go:34-68 | Under every interleaving of reserve, create-reservation and release steps the total is the sum of the buckets, each bucket and what is still taken from it make up its initial share, and nothing goes negative |
| `FlashSale.NeverOversold` | services/flash-sale/store.go:34-68 | Stock taken and stock left add up to the initial stock in every reachable state, and neither exceeds it |
| `FlashSale.OneUnitFailsIffSoldOut` | services/flash-sale/store.go:34-49 | For a product set up with any stock in m buckets: over all runs a one-unit reserve that probes n buckets fails exactly when the total is 0 if and only if n >= m or the stock is at most n |
| `FlashSale.Draining` | services/flash-sale/store.go:34-49 | For every n < m and stock > n there is a run after which a one-unit reserve fails from every starting bucket although the total is positive |
| `FlashSale.ReserveOutcome` | services/flash-sale/store.go:34-49 | For any quantity: code -2 exactly when the total is too small, -3 exactly when it is not but no bucket has enough, otherwise the first bucket with enough, counted around from the starting one, and the total go down by exactly the quantity and nothing else changes |
| `FlashSale.ReleaseOutcome` | services/flash-sale/store.go:52-68 | Code -1 exactly for a missing reservation; a reserved one is marked released and its quantity goes back to its bucket and the total and nowhere else; a released or confirmed one changes nothing |
| `FlashSale.ProbeIsModulo` | services/flash-sale/store.go:41 | The i-th bucket probed is (start + i) mod N |
| `FlashSale.ReturnedAtMostOnce` | services/flash-sale/store.go:52-68 | A released reservation stays released on every run and releasing it again changes nothing |
| `FlashSale.ReturnedExactlyOnce` | services/flash-sale/store.go:52-68 | In every run all the releases of a reservation together put its quantity back exactly once, to the total and to the bucket it came from, if one of them met it live, and nothing otherwise |
| `FlashSale.SharesAreFair` | services/flash-sale/store.go:427-435 | The initial shares differ by at most one, larger ones first, and add up to the stock if and only if it is not negative or divides evenly |
| `FlashSale.StepKeeps` | services/flash-sale/service.go:69-100 | Each atomic store step, at any point of any request, keeps conservation and the record of what is held |
| `FlashSale.Store.InitProduct` | services/flash-sale/store.go:424-438 | Writes total and buckets of a product, the total alone for a negative bucket count, and leaves all other keys alone |
| `FlashSale.Store.BucketDecr` | services/flash-sale/store.go:34-49 | The script loop takes the first probed bucket with enough stock and changes Redis exactly by that reserve step |
| `FlashSale.Store.ReserveStock` | services/flash-sale/store.go:188-204 | Probing starts at the bucket the device fingerprint hashes to |
| `FlashSale.Store.CreateReservation` | services/flash-sale/store.go:206-215 | Writes a reservation with its quantity and bucket |
| `FlashSale.Store.ReleaseReservation` | services/flash-sale/store.go:217-226 | Not found exactly when there is no such reservation; otherwise the release step |
| `Autocomplete.Trie.Search` | services/search-autocomplete/trie/trie.go:45-71 | The result is the ranking of all terms with the prefix and positive frequency in the map the trie stands for, truncated to the limit: the terms with the prefix and a positive frequency, each once, higher frequencies first and, at equal ones, the term that is a prefix of the other or has the smaller character where they first differ; the first limit of them if there are more and the limit is positive |
| `Autocomplete.RankingUnique` | services/search-autocomplete/trie/trie.go:45-80 | A frequency map has one ranking for a prefix, so the answer does not depend on the order in which children are visited |
| `Autocomplete.TruncationKeepsBest` | services/search-autocomplete/trie/trie.go:60-70 | A match that is left out ranks after every result returned, and then the limit is used up |
| `Autocomplete.RankingReads` | services/search-autocomplete/trie/trie.go:60-65 | A ranking has each matching term once, by falling frequency, ties by the order of strings |
| `Autocomplete.LessMeans` | services/search-autocomplete/trie/trie.go:62 | A string is less than another if and only if it is a proper prefix of it or has the smaller character at the first place where they differ |
| `Autocomplete.LessTotal` | services/search-autocomplete/trie/trie.go:62 | The string order that breaks ties is total |
| `Autocomplete.FrequencyIsSum` | services/search-autocomplete/trie/trie.go:22-34 | After any inserts, in any order, a term's frequency is the sum of what was inserted for it |
| `Autocomplete.Trie.Insert` | services/search-autocomplete/trie/trie.go:22-34 | Walking and creating nodes adds the frequency to exactly that term and keeps the nodes a tree |
| `Autocomplete.Trie.Increment` | services/search-autocomplete/trie/trie.go:36-38 | Adds one to exactly that term |
| `Autocomplete.Trie.Collect` | services/search-autocomplete/trie/trie.go:73-80 | Appends exactly the terms with positive frequency below a node, each once, children in any order |
| `WebCrawler.FrontierIsBounded` | services/web-crawler/crawler/crawler.go:95-130 | Under every interleaving of the three workers each URL is enqueued and taken at most once, in queue order, and at most MaxPages URLs are ever enqueued; there are three workers |
| `WebCrawler.ChannelsNeverFull` | services/web-crawler/crawler/crawler.go:101-130 | No worker ever waits to send a result, although results are only read after the workers are done, and the branch that drops a link is never taken |
| `WebCrawler.ResultsAreAccountedFor` | services/web-crawler/crawler/crawler.go:114-129 | Results, pages in progress and queued URLs add up to the URLs enqueued |
| `WebCrawler.NothingIsForgotten` | services/web-crawler/crawler/crawler.go:114-129 | In every reachable state only the seed and links on pages fetched with status 200 are visited; every such link is visited or still before a worker; and while at most MaxPages URLs are visited each of them has been enqueued or is about to be |
| `WebCrawler.CrawlIsComplete` | services/web-crawler/crawler/crawler.go:114-129 | Once the workers are idle and the queue is empty, exactly the seed and the links on pages fetched with status 200 are visited, every URL enqueued has exactly one result, and if at most MaxPages are visited these are all of them |
| `WebCrawler.FetchedIsReported` | services/web-crawler/crawler/crawler.go:114-117 | In every run the results and those about to be sent are exactly the pages fetched, with their status and links |
| `WebCrawler.StepKeeps` | services/web-crawler/crawler/crawler.go:114-129 | Each atomic access to the visited set, the queue or the results keeps the counting invariant |
| `WebCrawler.AtMostMax` | services/web-crawler/crawler/crawler.go:119-125 | Distinct URLs that were each among the first MaxPages visited are at most MaxPages |
| `WebCrawler.VisitedURLs.TryVisit` | services/web-crawler/crawler/crawler.go:26-34 | True exactly for the first visit of a URL, which is then visited |
| `WebCrawler.VisitedURLs.Len` | services/web-crawler/crawler/crawler.go:36-40 | The number of distinct URLs visited |
| `SlidingWindows.NeverMoreThanLimit` | services/rate-limiter/algorithm/sliding_window.go:21-49 | At most limit requests are admitted in any span (t - w, t] of any run |
| `SlidingWindows.AdmittedIffRoom` | services/rate-limiter/algorithm/sliding_window.go:25-48 | A request is admitted if and only if fewer than limit were admitted in the window that ends with it |
| `SlidingWindows.RejectedOnlyWhenFull` | services/rate-limiter/algorithm/sliding_window.go:41-48 | A rejected request finds exactly limit admitted in its window |
| `SlidingWindows.BoundedIff` | services/rate-limiter/algorithm/sliding_window.go:28-32 | The bound holds of every run if and only if the limit is at least 1, since a key's first request is always admitted |
| `SlidingWindows.EachKeyBounded` | services/rate-limiter/algorithm/sliding_window.go:21-49 | In any interleaving of the requests of all keys every request is decided as in its key's own run, and the bound holds for each key |
| `SlidingWindows.SlidingWindow.Allow` | services/rate-limiter/algorithm/sliding_window.go:21-49 | Filtering and appending the key's timestamps decides and updates that key alone |
| `TokenBuckets.NeverMoreThanRate` | services/rate-limiter/algorithm/token_bucket.go:22-46 | At most limit + rate (t - s) requests are admitted in any interval [s, t] of any run |
| `TokenBuckets.AdmittedIffConforming` | services/rate-limiter/algorithm/token_bucket.go:33-45 | A request is admitted if and only if from every earlier request on a bucket full then would still hold a token |
| `TokenBuckets.LevelIsLeast` | services/rate-limiter/algorithm/token_bucket.go:33-39 | The level is the least, over all earlier requests, of the limit plus what flowed in less what was admitted since |
| `TokenBuckets.LevelNonNegative` | services/rate-limiter/algorithm/token_bucket.go:33-45 | The level never goes below zero on a clock that does not go back |
| `TokenBuckets.BoundedIff` | services/rate-limiter/algorithm/token_bucket.go:26-33 | For every limit and positive window, with the rate they set, the bound holds of every run if and only if the limit is at least 1 |
| `TokenBuckets.EachKeyBounded` | services/rate-limiter/algorithm/token_bucket.go:22-46 | In any interleaving of the requests of all keys every request is decided as in its key's own run, and the bound holds for each key |
| `TokenBuckets.TokenBucket.Allow` | services/rate-limiter/algorithm/token_bucket.go:22-46 | Refill, cap and withdrawal decide and update that key alone |
| `FixedWindows.NeverMoreThanLimit` | services/rate-limiter/algorithm/fixed_window.go:22-41 | At most limit requests are admitted in any aligned window of any run |
| `FixedWindows.NeverMoreThanTwice` | services/rate-limiter/algorithm/fixed_window.go:22-41 | At most 2 limit requests are admitted in any span of one window length |
| `FixedWindows.TwiceIsReached` | services/rate-limiter/algorithm/fixed_window.go:22-41 | For every limit some run admits exactly 2 limit requests in such a span |
| `FixedWindows.AdmittedIffRoom` | services/rate-limiter/algorithm/fixed_window.go:26-40 | A request is admitted if and only if fewer than limit were admitted in its aligned window before it |
| `FixedWindows.BoundedIff` | services/rate-limiter/algorithm/fixed_window.go:30-34 | The bound holds of every run if and only if the limit is at least 1 |
| `FixedWindows.EachKeyBounded` | services/rate-limiter/algorithm/fixed_window.go:22-41 | In any interleaving of the requests of all keys every request is decided as in its key's own run, and both bounds hold for each key |
| `FixedWindows.FixedWindow.Allow` | services/rate-limiter/algorithm/fixed_window.go:22-41 | Counting or replacing the entry decides and updates that key alone, for any clock, the division rounding toward zero |
| `KeyedRuns.KeysAreIndependent` | services/rate-limiter/algorithm/sliding_window.go:28-30 | In any interleaving of requests a key's state is that of its own requests alone |
| `PromoResolution.ResolutionConservesMoney` | services/promo-engine/service/resolver.go:73-143 | For a non-negative whole-cent cart and conforming effects, groups in any order: 0 <= FinalAmount <= CartTotal, FinalAmount + TotalDiscount = CartTotal, and the reported amounts exceed TotalDiscount by at most one cent per applied rule |
| `PromoResolution.PromoResolver.Resolve` | services/promo-engine/service/resolver.go:48-143 | Every reported amount is the rounded discount on what earlier rules left; the rules are the best of their groups, then stackable ones in priority order within their limits; the calls that the counters granted are, one for one and in order, those for the limited rules applied; a rule is missing only because a call for it was refused or enough rules were stacked before it; none is applied twice; final amount and total come from what is left |
| `PromoResolution.AppliedReads` | services/promo-engine/service/resolver.go:75-133 | For every resolution: rules of groups come first, one for each group, and take at least as much off the whole cart as any of their group; the others stack by falling priority, each with fewer before it than its limit; each amount is the rounded discount on what is left at its turn |
| `PromoResolution.MissingReads` | services/promo-engine/service/resolver.go:75-133 | A group without a rule had its best one turned away by the counters; a stackable rule is missing only if it was turned away or as many as its limit of at least its priority were stacked first; no rule is applied twice |
| `PromoResolution.GrantedIsApplied` | services/promo-engine/service/resolver.go:148-165 | Every call that the counters allowed is for a limited rule that is applied |
| `PromoResolution.AppliedWasGranted` | services/promo-engine/service/resolver.go:148-165 | A limited rule is applied only after the counters granted a call for it, in the state the calls before had left |
| `PromoResolution.PromoResolver.OnePerGroup` | services/promo-engine/service/resolver.go:85-112 | Every exclusivity group with a validated rule has exactly one rule applied, the one that discounts the whole cart most, unless a call to the counters turned that one away |
| `PromoResolution.LimitsKeptIff` | services/promo-engine/service/resolver.go:81-133 | For any set of kinds of rules: in every resolution of rules of those kinds no group has more rules applied than the limit of an applied rule in it, the rules outside all groups counting as one group, if and only if no kind that stacks outside the groups can come before another one whose limit is higher or absent |
| `PromoResolution.OverrunHappens` | services/promo-engine/service/resolver.go:115-133 | For any two such kinds, a with a limit and b with a higher one or none, there is a resolution, for any cart, in which more rules are stacked than a allows |
| `PromoResolution.Extended` | services/promo-engine/service/resolver.go:104-111 | Applying one more rule keeps the chain of reported and remaining amounts |
| `PromoResolution.PromoResolver.Split` | services/promo-engine/service/resolver.go:57-73 | Groups and stackable rules partition the sorted rules, each group with its discounts on the whole cart |
| `PromoResolution.PromoResolver.BestIn` | services/promo-engine/service/resolver.go:88-93 | The chosen rule discounts the whole cart at least as much as every validated rule of its group |
| `PromoResolution.PromoResolver.ApplyStackable` | services/promo-engine/service/resolver.go:115-133 | Each stackable rule is applied in priority order, unless as many as its limit allows came before it or a call for it was refused; every granted call is for a rule applied |
| `PromoResolution.PromoResolver.TryReserve` | services/promo-engine/service/resolver.go:148-165 | Calls the counters for a limited rule and for no other, and passes their answer on |
| `PromoMoney.DiscountsAddUp` | services/promo-engine/model/model.go:42-58 | The reported discounts exceed what was really taken off by exactly one cent for each discount that ends in half a cent, and what is left stays between 0 and the cart |
| `PromoMoney.AlwaysBalancedIff` | services/promo-engine/service/resolver.go:135-142 | Final amount and total discount make up every cart, whichever of the given effects are applied and in whatever order, if and only if each is a percentage up to 100, a cashback below half a cent, or of another type |
| `PromoMoney.AlwaysSoundIff` | services/promo-engine/service/resolver.go:104-142 | The whole promise (balanced, between 0 and the cart, reported amounts within a cent per rule) holds for every cart, choice and order of the given effects if and only if each is a percentage from 0 to 100, a fixed amount above minus half a cent, a cashback that rounds to nothing, or of another type |
| `PromoMoney.ConformingIsSound` | services/promo-engine/service/resolver.go:104-142 | Effects of those kinds keep the whole promise in any order and number |
| `PromoMoney.Unsafe` | services/promo-engine/model/model.go:42-58 | For every other percentage and cashback there is a cart that it takes below zero: the final amount is 0 and the total discount more than the cart |
| `PromoMoney.Raises` | services/promo-engine/model/model.go:42-58 | For every negative percentage, and for every fixed amount or cashback of minus half a cent or less, there is a cart that it raises |
| `PromoMoney.RemainingIsWhole` | services/promo-engine/service/resolver.go:111 | What is left is a whole number of cents after any effects |
| `PromoMoney.DiscountWithin` | services/promo-engine/model/model.go:42-58 | A conforming effect takes off less than half a cent below nothing and less than half a cent above what there is, and stays between the two when its value is not negative and it is no cashback |
| `PromoMoney.EffectsTake` | services/promo-engine/model/model.go:42-58 | From any amount: a percentage in proportion, a fixed amount in full unless there is less, a cashback in full, free shipping and unknown types nothing |
| `PromoMoney.RoundParts` | services/promo-engine/model/model.go:655-657 | Rounding both parts of a whole amount gives the whole, or one more exactly on a half, also when a part lies outside it by less than a half |
| `PromoConditions.RoundTripIff` | services/promo-engine/model/model.go:289-473 | A condition tree survives encoding and decoding if and only if it is one that decoding can produce |
| `PromoConditions.StoredMeansTheSame` | services/promo-engine/model/model.go:289-473 | A condition read from any JSON, stored and read back is the same tree and holds in the same contexts |
| `PromoConditions.DecodedIsWellFormed` | services/promo-engine/model/model.go:302-348 | Every decoded tree has the shape its type asks for, at every level |
| `PromoConditions.UnmarshalCondition` | services/promo-engine/model/model.go:289-349 | Decodes or fails with the first error in document order: discriminator, payload, missing field, unknown type, or that of the first bad child |
| `PromoConditions.NullsAreZero` | services/promo-engine/model/model.go:289-349 | A null among listed numbers or texts is read as 0 or as the empty text, all others as they are |
| `PromoConditions.MarshalCondition` | services/promo-engine/model/model.go:418-473 | Writes exactly the fields of the node's type, children only when there are any, nil slices as null |
| `PromoConditions.Eval` | services/promo-engine/model/model.go:92-116 | Short-circuit evaluation decides for-all for AND, exists for OR and negation for NOT, NOT without a child being true and any other type false |
| `PromoConditions.EvalArea` | services/promo-engine/model/model.go:134-141 | True exactly when some listed area equals the order's up to case |
| `PromoConditions.EvalCategory` | services/promo-engine/model/model.go:148-157 | True exactly when a listed category equals one of the cart's up to case, or none is listed |
| `PromoConditions.EvalTimeSlot` | services/promo-engine/model/model.go:175-211 | True exactly on a listed day, if any is, and inside the slot, which may run over midnight |
| `PromoConditions.DeMorgan` | services/promo-engine/model/model.go:92-116 | NOT of AND is OR of NOTs and the other way round, for any children in any context |
| `PromoConditions.NegatedMeans` | services/promo-engine/model/model.go:92-116 | Pushing a negation down to the leaves of any tree negates its meaning |
| `PromoConditions.SlotsComplement` | services/promo-engine/model/model.go:194-209 | A slot and the one over midnight with the same ends cover every minute and share only the ends, and a slot has what lies between |
| `PromoConditions.RangesFromLimits` | services/promo-engine/model/model.go:120-168 | A minimum with a negated higher one holds exactly for carts from the first up to but without the second, and an order limit with the negated limit below it exactly for that order |
| `PromoConditions.ListsUnite` | services/promo-engine/model/model.go:130-157 | A longer list of areas or categories admits what its parts admit; one area is compared with the order's; no areas admit nothing and no categories everything |
| `PromoConditions.SlotsMean` | services/promo-engine/model/model.go:175-211 | Listed days restrict a slot to those weekdays; a slot from a time to the same time is that minute of the given moment or else of the clock; without a start or an end it is the whole day |
| `FanOut.InOrder` | services/tracking-service/service/fanout.go:41-88 | In every run what a subscriber has received and still has buffered is an in-order duplicate-free subsequence of the events consumed while it was in place, that of those published, and received + buffered + dropped = consumed |
| `FanOut.NothingDroppedNothingMissing` | services/tracking-service/service/fanout.go:44-52 | A subscriber has every event consumed in its time if and only if it dropped none |
| `FanOut.DroppedOnlyWhenFull` | services/tracking-service/service/fanout.go:45-51 | In every run a subscriber has dropped exactly as many events as were handed to it while its buffer was full, and the pipe has refused exactly as many as were published while it held 64 |
| `FanOut.KeepsWhatFoundRoom` | services/tracking-service/service/fanout.go:44-52 | In every run and for every capacity, what a subscriber has received and still has buffered is exactly the sequence of events whose hand-over found room; it is everything handed over if and only if no hand-over met a full buffer |
| `FanOut.KeptIffRoom` | services/tracking-service/service/fanout.go:45-51 | In any state an event handed over is appended to what the subscriber holds if and only if the buffer has room, and otherwise it is that event that is lost; no other step changes what the subscriber holds |
| `FanOut.FullBufferKeepsOldest` | services/tracking-service/service/fanout.go:45-51 | For every capacity and every sequence of events there is a run in which a subscriber that reads nothing ends with exactly the oldest events that fit |
| `FanOut.CloseDrains` | services/tracking-service/service/fanout.go:42-62 | Once a closed pipe's consumer has finished, every event taken in has been handed round; the pipe is closed exactly after a Close; every subscriber whose time is over was told to go exactly once or was replaced under its id, and nobody in place was |
| `FanOut.ToldToGoIff` | services/tracking-service/service/fanout.go:54-83 | A step ends a subscriber's time exactly when it removes it, replaces it or ends the pipe, and signals it in the first and the last case but not when it is replaced |
| `FanOut.StepKeeps` | services/tracking-service/service/fanout.go:41-88 | Every channel operation and locked section keeps the bookkeeping of all subscribers, past ones included |
| `Elasticity.DenominatorSign` | services/pricing-service/service/elasticity.go:93-96 | n Sxx - Sx^2 is never negative, and zero exactly when all usable log-prices are equal |
| `Elasticity.ExactLine` | services/pricing-service/service/elasticity.go:97 | Points on y = a + b x with two distinct prices give slope b |
| `Elasticity.LeastSquares` | services/pricing-service/service/elasticity.go:93-97 | With two distinct prices no line comes closer to the points than the one through their centre with the returned slope |
| `Elasticity.ElasticityTracker.Record` | services/pricing-service/service/elasticity.go:32-42 | The points kept for every area are the last 100 recorded for it |
| `Elasticity.ElasticityTracker.LogLogRegression` | services/pricing-service/service/elasticity.go:73-98 | The accumulated sums give the slope over the usable points, and 0 in the degenerate cases |
| `Elasticity.ElasticityTracker.SurgeCap` | services/pricing-service/service/elasticity.go:47-69 | The cap that the slope of the last 100 points calls for |
| `Elasticity.ConstantElasticity` | services/pricing-service/service/elasticity.go:47-69 | When the usable ones of the last 100 observations recorded for an area satisfy loadRatio = e^a surgeMult^b, at two prices at least, the cap is 1.5, 2, 3 or 5 as abs(b) is above 1.5, 1, 0.5 or not, whatever was recorded before |
| `Elasticity.OnePriceNoCap` | services/pricing-service/service/elasticity.go:47-98 | The cap is 5 when they are all at one price, or fewer than two |
| `Snowflake.StrictlyIncreasing` | services/unique-id-generator/snowflake/snowflake.go:34-61 | For any clock sequence, jumps back included, ids strictly increase as long as the accepted readings lie before 2^41 ms after the epoch |
| `Snowflake.OrderBreaks` | services/unique-id-generator/snowflake/snowflake.go:56-58 | At 2^41 ms after the epoch the order breaks, for every worker and all sequence numbers |
| `Snowflake.OrderIff` | services/unique-id-generator/snowflake/snowflake.go:56-58 | Exactly when one id of a worker is below another, for all timestamps |
| `Snowflake.NeverTheSame` | services/unique-id-generator/snowflake/snowflake.go:34-61 | Ids of any two runs are equal if and only if worker, sequence and the timestamp modulo 2^42 ms agree; so different workers never share an id, whatever their clocks |
| `Snowflake.SameIff` | services/unique-id-generator/snowflake/snowflake.go:56-58 | Two packed ids are equal exactly when worker, sequence and timestamp modulo 2^42 ms are |
| `Snowflake.Recover` | services/unique-id-generator/snowflake/snowflake.go:9-18 | Sequence and worker can be read back from every id, and the timestamp exactly when it is within 2^41 ms of the epoch |
| `Snowflake.IssuedInOrder` | services/unique-id-generator/snowflake/snowflake.go:38-54 | Every id is made of a later timestamp than the one before, or of the same and a later sequence number |
| `Snowflake.CallOutcome` | services/unique-id-generator/snowflake/snowflake.go:34-61 | A call refuses exactly when its first reading is before the last timestamp; otherwise its id has the last timestamp and the next sequence number, or a later one and 0; the timestamp is the first reading, or, when 4096 ids are used up, the first one after the last timestamp, and without one the call keeps waiting |
| `Snowflake.ComposeAdds` | services/unique-id-generator/snowflake/snowflake.go:56-58 | The shifted parts occupy different bits, so OR-ing them adds them up, in wrapping 64-bit arithmetic and for timestamps before the epoch too |
| `Snowflake.MaskIsMod` | services/unique-id-generator/snowflake/snowflake.go:44 | Masking with 2^k - 1 is the remainder by 2^k |
| `Snowflake.New` | services/unique-id-generator/snowflake/snowflake.go:27-32 | A generator exactly for worker ids 0 to 1023 |
| `Snowflake.Generator.Next` | services/unique-id-generator/snowflake/snowflake.go:34-61 | Refuses a clock that went back, counts within a millisecond, and waits for the next one when 4096 ids are used up |
| `ForecastAccuracy.SkuAccuracy.Add` | services/forecasting-service/service/accuracy.go:63-67 | Writing at the position and advancing it keeps the ring buffer equal to the last 30 of the list of all errors |
| `ForecastAccuracy.SkuAccuracy.ComputeStats` | services/forecasting-service/service/accuracy.go:102-135 | The daily values are the last min(n, 30) errors in chronological order, the weekly mean is over the last min(n, 7), the monthly one over all kept |
| `ForecastAccuracy.SkuAccuracy.WeeklyMean` | services/forecasting-service/service/accuracy.go:112-122 | The backward loop sums exactly the last seven errors |
| `ForecastAccuracy.AccuracyMonitor.Record` | services/forecasting-service/service/accuracy.go:46-68 | Appends one error to the history of that key alone, and nothing for an actual of 0 |
| `ForecastAccuracy.OffByPercent` | services/forecasting-service/service/accuracy.go:51 | A forecast off by p percent either way has error p, or -p for a negative actual |
| `ForecastAccuracy.StatsRead` | services/forecasting-service/service/accuracy.go:102-135 | The daily values are the last errors up to 30, oldest first, then zeros; the weekly and monthly values are the means of the last 7 and 30, or fewer, to the nearest hundredth, and 0 without any |
| `ForecastAccuracy.AccuracyMonitor.GetStats` | services/forecasting-service/service/accuracy.go:71-82 | The statistics of the key's history, empty ones for an unknown key |
| `ForecastAccuracy.AccuracyMonitor.GetDegradedSKUs` | services/forecasting-service/service/accuracy.go:86-98 | Exactly the keys with a weekly mean above 30, each once |
| `ForecastAccuracy.FlaggedByItsLastWeek` | services/forecasting-service/service/accuracy.go:86-98 | A product is flagged only if one of its last seven errors is above the threshold, and surely if all are at least one hundredth above |
| `ForecastAccuracy.OlderErrorsForgotten` | services/forecasting-service/service/accuracy.go:102-135 | Histories with the same last thirty errors have the same statistics |
| `ForecastAccuracy.SharesKeyIff` | services/forecasting-service/service/accuracy.go:33-35 | Another product-hub pair has the same key if and only if one of the two names contains the separator |
| `Imputation.ImputeStockouts` | services/forecasting-service/service/forecasting.go:277-323 | Every run of two or more zeros becomes the mean of the positive values beside it, and nothing else changes |
| `Imputation.Idempotent` | services/forecasting-service/service/forecasting.go:277-323 | Filling in twice is filling in once |
| `Imputation.OnlyRunsOfZerosChange` | services/forecasting-service/service/forecasting.go:286-321 | Only zeros in runs of two or more change, to positive values no larger than one beside the run |
| `Imputation.AsDescribedIff` | services/forecasting-service/service/forecasting.go:276-323 | A history is filled in with the means of the non-zero values beside its runs, as the comment says, if and only if no run of two or more zeros has a negative value beside it |
| `Sagas.SagaOrchestrator.Execute` | services/checkout-service/service/saga.go:32-61 | For any steps and failures: all steps run, or the first failing step is recorded and exactly the steps before it are compensated, last first |
| `Sagas.RecordReads` | services/checkout-service/service/saga.go:32-73 | When the first k steps succeed and the next does not, the calls are steps 0 to k and the compensations of k-1 down to 0, and the log has the k successes by name |
| `Sagas.SagaOrchestrator.Compensate` | services/checkout-service/service/saga.go:63-73 | Compensates in reverse order whether or not compensations fail |
| `Sagas.UndoneRestores` | services/checkout-service/service/saga.go:32-73 | If compensations undo their steps and a failing step changes nothing, a failed saga restores the start state |
| `Checkout.CheckoutService.NewOrder` | services/checkout-service/service/checkout.go:41-69 | The books become those of the pipeline run up to the first step turned down, and undone again if there is one; the result names the order, the step, and every step that ran with its outcome |
| `Checkout.PlacedLeaves` | services/checkout-service/service/checkout.go:41-69 | That request succeeds exactly when no step is turned down; then the order is in the store as confirmed with the wrapped sum of price times quantity, its items are reserved and that sum charged, and two events name it; otherwise nothing is published and the order is not confirmed. The log has the steps by name, in order, up to the first one turned down with its error |
| `Checkout.ConfirmedIffGranted` | services/checkout-service/service/checkout.go:41-95 | In every run of requests and payment confirmations from a new service, the confirmed orders are exactly those of the requests that no step turned down, as they were asked for: none is confirmed later, lost or changed |
| `Checkout.PlacedOrders` | services/checkout-service/service/saga.go:98-190 | What a request leaves in the store: the order confirmed when no step was turned down, cancelled when it had been created, and nothing when it had not |
| `Checkout.CompletedIs` | services/checkout-service/service/saga.go:192-230 | A request that no step turned down leaves its confirmed order, two events about it, its reservations and one charge |
| `Checkout.BooksAlwaysBalance` | services/checkout-service/service/checkout.go:41-95 | In every such run every order is confirmed or cancelled, and charges, reservations and events match the confirmed ones |
| `Checkout.CheckoutService.ConfirmPayment` | services/checkout-service/service/checkout.go:73-95 | Accepted, with one event, exactly for a confirmed order, and refused without effect otherwise, a missing order having an error of its own |
| `Checkout.FailedLeaves` | services/checkout-service/service/saga.go:77-237 | A failed checkout publishes nothing, touches no other order, and leaves nothing charged or reserved that was not before |
| `Checkout.FailureKeepsBooks` | services/checkout-service/service/saga.go:77-237 | After a failed checkout charges, reservations and events still match the confirmed orders |
| `Checkout.SuccessKeepsBooks` | services/checkout-service/service/saga.go:77-237 | So they do after a successful one, with the new order counted in |
| `Checkout.OnlyConfirmedOrdersCount` | services/checkout-service/service/saga.go:98-190 | In every such run what is charged and reserved for an id and not given back is exactly the wrapped sum of price times quantity, and the quantity of each product, of the request that no step turned down, or nothing if there is none, and only then are there events about it |
| `Checkout.CheckoutService.TotalOf` | services/checkout-service/service/checkout.go:44-49 | The total is the sum of price times quantity in wrapping 64-bit arithmetic, and the exact one if and only if that is in range |
| `Checkout.TotalIsSum` | services/checkout-service/service/checkout.go:44-49 | Adding up item by item gives the sum of price times quantity over the items, and of the quantities of a product |
| `Checkout.TotalOfLots` | services/checkout-service/service/checkout.go:44-49 | One item costs its price times its quantity and two lots cost what they cost together, in wrapping arithmetic |
| `Batching.BatchCollector.Run` | services/dispatch-service/service/batcher.go:59-100 | Over a whole run the batches, one after the other, are the orders taken, in order and each once, and nothing is left after a stop; no batch is empty or larger than the threshold, unless of one order |
| `Batching.BatchCollector.Turn` | services/dispatch-service/service/batcher.go:72-99 | One event adds at most one order and moves at most one batch on; an order goes to what is pending, and all of it goes out as one batch when it reaches the threshold, when the window is over, and at the stop |
| `Batching.BatchCollector.Flush` | services/dispatch-service/service/batcher.go:102-115 | Moves what is pending on as one batch, and never an empty one |
| `CircuitBreakers.SequentialIff` | pkg/kit/circuitbreaker/circuitbreaker.go:45-74 | With one caller at a time the circuit is open between calls exactly when the last threshold calls all failed, and turns a call away exactly when it is and the timeout is not over |
| `CircuitBreakers.CountsConsecutiveFailures` | pkg/kit/circuitbreaker/circuitbreaker.go:61-72 | In every interleaving the counter is the number of failures since the last success, and a closed circuit has seen fewer than the threshold |
| `CircuitBreakers.OneProbeIff` | pkg/kit/circuitbreaker/circuitbreaker.go:47-55 | In every run a half-open circuit lets at most one call through if and only if no call begins while it is half-open |
| `CircuitBreakers.SequentialProbes` | pkg/kit/circuitbreaker/circuitbreaker.go:45-74 | One caller at a time is enough for that, and then a failed probe always opens the circuit again |
| `CircuitBreakers.FailedProbeReopensIff` | pkg/kit/circuitbreaker/circuitbreaker.go:61-67 | In every interleaving a failed probe opens the circuit again if and only if the failures since the last success, with this one, reach the threshold |
| `CircuitBreakers.ManyProbes` | pkg/kit/circuitbreaker/circuitbreaker.go:47-55 | For every threshold and every n there is a run of a new breaker in which n overlapping calls are let through in one half-open period |
| `CircuitBreakers.LateSuccess` | pkg/kit/circuitbreaker/circuitbreaker.go:61-73 | For every threshold above one there is a run of a new breaker in which a success that arrives late clears the counter of an open circuit and the next probe fails without opening it again |
| `CircuitBreakers.CircuitBreaker.Begin` | pkg/kit/circuitbreaker/circuitbreaker.go:46-55 | Lets a call through unless the circuit is open and its timeout not over, and only then moves to half-open |
| `CircuitBreakers.CircuitBreaker.Finish` | pkg/kit/circuitbreaker/circuitbreaker.go:59-73 | Counts or clears failures and moves between the states accordingly |

## Left out

- Transport and plumbing: main programs, handlers, HTTP, SSE and WebSocket framing, configuration, logging, Redis errors and partial pipeline failures.
- Rounding, overflow, infinities and NaN of `float64`.
- Random ids (uuid, reservation ids) are parameters that are assumed new; HMAC tokens, idempotency keys, the request rate limit, the slot pool, the waiting room and the lottery of the flash sale.
- Expiry and timers: reservation and slot time-outs, and in the crawler everything after the queue is closed.
- KalmanFilters.KalmanFilter.Update: length and angle of the velocity are arbitrary functions; extrapolation to a later time is not modelled.
- Dispatch.GreedyMatcher.Match: requires that no driver is passed in twice, which the list taken from the registry (services/dispatch-service/service/statemachine.go:74-76) never does; distances are an arbitrary function; assignment ids are not modelled.
- KeyValueStore.Manager.GetShard: with no node at all the ring panics, which the three operations exclude.
- ConsistentHash.HashRing.Get: the panic on an empty ring is an outcome of its own; `Itoa` covers the non-negative numbers the ring uses.
- FlashSale.Store.InitProduct: a bucket count of 0, by which the code divides, is excluded.
- FlashSale.EveryRunConserves: a product is set up once; setting it up again overwrites its stock and forgets what is outstanding.
- FlashSale.StepKeeps: a reservation that is never created after its stock was taken counts as still outstanding, and quantities are at least one, as the handler demands.
- Autocomplete.Trie.Search: strings are sequences of characters, whose order is that of their UTF-8 bytes; ill-formed UTF-8 is not modelled.
- SlidingWindows.SlidingWindow.Allow: the table holds values rather than pointers to entries; the same goes for the other two limiters.
- SlidingWindows.NeverMoreThanLimit: for one limit and one window over the run and a clock that does not go back, as for the other limiters.
- TokenBuckets.TokenBucket.Allow: a window of length 0, whose rate is an infinite `float64`, is excluded.
- FixedWindows.FixedWindow.Allow: a window of length 0 is excluded, since the code divides by it.
- PromoResolution.PromoResolver.Resolve: the counter service is an arbitrary function of the calls made before and the rule; user ids, budgets and the names copied into the result are not modelled; the order in which the input slice is left is not stated.
- PromoConditions.UnmarshalCondition: works on a JSON tree, so text syntax, the spelling of numbers, repeated keys and keys that differ in case are not modelled; error texts are reduced to their kind.
- PromoConditions.MarshalCondition: a nil condition, which decoding never produces, is not modelled.
- FanOut.InOrder: each call of Subscribe brings a subscriber of its own; the registry of pipes and the wait in Close, for a signal that nothing sends, are not modelled.
- Elasticity.ElasticityTracker.SurgeCap: reads the last points and computes in one step, although the lock is released between the two.
- Snowflake.Generator.Next: a clock that never moves on is an outcome, after which the lock is held for good.
- ForecastAccuracy.AccuracyMonitor.Record: a negative actual gives a negative error, as in the code.
- Checkout.CheckoutService.NewOrder: remote calls, which the steps only log so far, are answers given before a step changes anything; the outbox never blocks; requests do not overlap; the id is new.
- Batching.BatchCollector.Run: the timer is an event that may come at any time; channel capacities are not modelled; orders are numbers.
- CircuitBreakers.CircuitBreaker.Begin: `fn` itself is not modelled, only that it succeeds or fails.
- The inventory service, driver event logs, geo cache, surge decay, arrival-time percentiles, demand forecasting, search ranking, chat, URL shortener, and the Drive, YouTube and notification stores: thin storage or simple clamps, which would only add easy members.
