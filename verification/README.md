# Monny: verified models of its stateful cores

Monny watches a process and its logs.  This project models the five parts of it that keep state and
proves what they promise over whole runs:

* **The EWMA change detector** (`pkg/stat`, over the ring buffer of `pkg/metric/series.go` and the state
  machine of `pkg/fsm`).  `Estimator.dfy` is the seven-phase step function, branch for branch, including
  the fall-through after Reset that compares stale values.  `EstimatorRuns.dfy` says without the state
  machine what a fresh statistic makes of a whole list of observations, and `EstimatorRestarts.dfy` does
  the same for a statistic in any state; `EstimatorBands.dfy`, `EstimatorTrips.dfy` and
  `EstimatorSymmetry.dfy` hold the limits and the band invariant, the trip times, and the symmetries
  under change of unit.  `TestStatistic.dfy` is the estimator as an object over a ring and a
  machine, and the tests that drive several statistics.
* **The series** (`Series.dfy`, `Sampled.dfy`): the ring buffer and the sampling window in front of it.
* **The windowed counter** (`Counter.dfy`): tumbling windows, 64-bit wrap-around, and a history that is
  pruned at every rollover.
* **The event bus** (`Bus.dfy`, `BusSafety.dfy`, `BusShutdown.dfy`, `BusDelivery.dfy`, `BusProgress.dfy`,
  `EventBus.dfy`, `Unsubscribe.dfy`): goroutines as atomic steps over the read-write mutex, capacity-one
  channels, sender tasks and done channels, with safety over every interleaving and what the bus can
  still get done.
* **State machines and options** (`Fsm.dfy`, `LogOptions.dfy`, `LogOrder.dfy`): plain, stoppable and
  nonce-guarded machines, and the priority-ordered options of the log processor.

Code that updates fields in place is a class whose methods are proved against step functions; the run
theorems are about those functions.  `Common.dfy`, `RealSums.dfy`, `Pdf.dfy` and `Smoothing.dfy` hold
sums, the estimates and the weighted average.

## What the proofs found

Where the code and its comments disagree the model follows the code.

* A record in phase Reset falls through to the upper-limit comparison with the average and limit of the
  previous test.  When that comparison succeeds the machine refuses the trip, so the call returns an
  error although the statistic has already restarted (`Estimator.RecordFailsIff`; the shortest run is
  `Estimator.RestartFailsIff`).  In a test with several statistics the ones behind it then miss the
  observation (`TestStatistics.AllReachedIff`).
* Neither `k` nor `lambda` is checked.  With a factor that is not positive the limit is not outside the
  mean, and a statistic can be testing with its average already past the limit
  (`EstimatorBands.BandedIffPositiveFactor`).
* The comment on the windowed counter says that history is limited by age first and then by count.  The
  code does it the other way round.  A counter whose window is not negative keeps its history sorted by
  start time under any clock, and on sorted histories the result is the same; with a negative window and
  a clock that runs backwards it need not be.  So the comment is right about everything a counter can
  report exactly when its window is not negative (`Counters.OrdersAgreeIff`).
* The same comment says that an empty struct acts like a plain counter.  An empty struct has no current
  counter, so every call on it dereferences nil (`Counters.WindowedCounter.Value` and `Add`).  Nor does
  a counter made with a duration of zero: it counts like a plain one but shows its total exactly until
  the clock has moved past its start, and zero from then on (`Counters.ZeroDurationValueIff`,
  `Counters.ZeroDurationLosesValue`).
* `defer recover()` and a `recover()` that is not deferred stop no panic.  Two ordinary calls endanger the
  bus: a `Subscribe` that names two or more topics, and an `Unsubscribe` of a channel for which a sender
  is still waiting.  Runs without a risky call are safe (`BusShutdown.HarmlessRunsAreSafe`), and before
  shutdown one risky call is enough for a panic to become possible without another, whatever is called
  afterwards (`BusShutdown.CanFaultAfterIff`).  The shortest such run in exported calls is one subscriber,
  one event, and an `Unsubscribe` before the sender gets the lock (`BusShutdown.NewBusCanPanic`).  Code
  inside the package, which alone can get at a done channel, must not pass one to `Unsubscribe` at all
  (`BusShutdown.UnsubscribeThenShutdownFuncPanics`).
* An attempted transition uses up its nonce even when it fails.  When no replacement can be generated
  after a failure the machine is left without a nonce, and the next attempt before a successful Reset
  dereferences nil (`Fsm.CrashIff`, `Fsm.WrongNonceThenCrash`).
* The options of the log processor are applied in a defined order "no matter the order in which they are
  passed", but options of the same kind are not ordered.  `LogOrder.OrderDoesNotMatterIff` says exactly
  for which options the outcome does not depend on it.  A history below -1 makes the queue of a command's
  source panic (`LogOptions.FailsIff`).

## Model

| member | source | states |
|---|---|---|
| EstimatorRuns.FreshRunIsSpecified | pkg/stat/estimator.go:37-100 | For every list of defined observations a fresh statistic ends with the phase, average, limit and recorded series that the specification describes: collecting until the first full window of the last `capacity` observations with positive mean and variance, then the fold from that mean, then frozen at the first average at or past the limit |
| EstimatorRuns.RunMeetsSpec | pkg/stat/estimator.go:37-100 | Every list of observations has a verdict under that specification, and the statistic ends in it |
| EstimatorRuns.VerdictUnique | pkg/stat/estimator.go:43-100 | The specification describes one outcome only, so it determines the run |
| EstimatorRuns.UndefinedLeavesNoTrace | pkg/stat/estimator.go:38-43 | A run with undefined transforms anywhere in it leaves the statistic as the run over the defined observations alone |
| EstimatorRestarts.CollectingRunIsSpecified | pkg/stat/estimator.go:43-100 | From either collecting phase, with any series, average and limit: the statistic changes nothing but its series, which keeps every observation, until the first full window that is a usable baseline; from there it tests with that window's mean and its limit on the right side, and freezes at the first average at or past the limit |
| EstimatorRestarts.StartsAtFirstUsable | pkg/stat/estimator.go:72-97 | Testing starts at exactly the first usable full window that ends with a new observation, whatever was recorded, averaged or limited before |
| EstimatorRestarts.TestingRunIsSpecified | pkg/stat/estimator.go:58-71 | The whole run from either testing phase: the weighted average while it has not reached the limit, the trip of the right side with the average of that moment from then on, and an alarm exactly if it ever has |
| EstimatorRestarts.AlarmedRun | pkg/stat/estimator.go:102-111 | After an alarm every record is kept and changes nothing else |
| EstimatorRestarts.RestartedRun | pkg/stat/estimator.go:45-57 | A run from Reset is the run of a statistic collecting for the upper test that has recorded only the first observation, with the stale limit and the stale average moved by it |
| EstimatorRestarts.LogGrows | pkg/stat/estimator.go:43-57 | On every run that does not start in Reset the series receives every observation, in order, and no record leads to Reset |
| Estimator.RecordFailsIff | pkg/stat/estimator.go:37-64 | Record returns an error exactly for an undefined observation, or from Reset when the stale average it folds into reaches the stale limit; an undefined observation changes nothing |
| Estimator.RestartFailsIff | pkg/stat/estimator.go:45-64 | A fresh statistic moved to Reset fails its next record exactly for an observation that is not negative |
| Estimator.RecordFromReset | pkg/stat/estimator.go:45-57 | A record from Reset ends in UCLInitial with exactly one baseline value whatever stale average and limit were held, folding the observation into the stale average and keeping the limit |
| Estimator.StepsFollowEdges | pkg/stat/estimator.go:104-130 | Every record or manual transition moves along a declared edge or stays, and an alarm is latched under Record with its average and limit frozen |
| Estimator.EdgesIff | pkg/stat/state.go:17-27 | Which phases can be left for which: everything but Reset leads to Reset, UCLInitial is entered from Reset alone and LCLInitial from Reset or UCLTrip, each test from its own collecting phase, each trip from its own test |
| Estimator.TransitionIsSpecified | pkg/stat/estimator.go:123-130 | A manual transition empties the series exactly when asked, even if it is refused, succeeds exactly along an edge, and never touches average and limit |
| EstimatorBands.RunsStayBanded | pkg/stat/estimator.go:43-130 | On every run of records and permitted manual transitions TestingUCL means average below limit, UCLTrip at or above, TestingLCL above, LCLTrip at or below, and the limit in force was computed from some full usable window |
| EstimatorBands.BandedIffPositiveFactor | pkg/stat/estimator.go:135-150 | That holds on all runs of a configuration if and only if the control-limit factor is positive or the statistic can never start a test |
| EstimatorBands.ManualKeepsBandIff | pkg/stat/estimator.go:125-130 | Which manual transitions keep phase and arithmetic in agreement: those refused, those to Reset or a collecting phase, and starting a test whose stale average lies inside the stale limit, no others |
| EstimatorBands.BandMonotoneInLambda | pkg/stat/estimator.go:135-150 | For equal factor, mean and variance the limits move outwards with lambda, so the EWMA band lies inside the Shewhart band of lambda = 1 |
| EstimatorBands.BandPositiveIff | pkg/stat/estimator.go:135-150 | With a positive variance the band has positive width exactly when the factor is positive |
| EstimatorBands.LimitIsKSigma | pkg/stat/estimator.go:132-150 | The limit lies k standard deviations of the settled average from the mean, on the side asked for, with 5.7 for a k that cannot be computed; the settled variance is given by its fixed-point equation |
| EstimatorBands.WindowSetsLimit | pkg/stat/estimator.go:72-97 | The limit a usable window sets, with the variance given by the squared differences of its pairs, or for Poisson by its mean |
| EstimatorBands.ReadyIff | pkg/stat/estimator.go:72-77 | A window is a usable baseline exactly when its mean is positive and, for log-normal statistics, it is not constant |
| EstimatorBands.StatisticsStartTogether | pkg/stat/lognormal.go:18-34 | Statistics that differ only in lambda, as the default EWMA and Shewhart ones do, start testing at the same record from the same mean, and the larger lambda has the upper limit that is no smaller |
| EstimatorTrips.TrippedIff | pkg/stat/estimator.go:58-71 | From either testing phase the statistic has tripped exactly when the running average was at or past the limit at some point, and until then its value is the running average |
| EstimatorTrips.TestingClosedForm | pkg/stat/estimator.go:119-121 | While testing either limit, the average is (1-lambda)^n times its start plus lambda times the sum of (1-lambda)^(n-1-i) o_i |
| EstimatorTrips.LargerStreamTripsNoLater | pkg/stat/estimator.go:58-71 | A stream nowhere smaller, from an average no smaller and against a limit no larger, trips the upper test no later, and the smaller stream trips the lower test no later |
| EstimatorTrips.TripsWithin | pkg/stat/estimator.go:58-64 | If every observation exceeds the limit by at least d > 0 the statistic has tripped after ceil((limit - current)/(lambda d)) records |
| EstimatorTrips.ConstantStreamTripsExactly | pkg/stat/estimator.go:58-64 | Against the constant stream limit + d it has tripped after n records exactly when n >= 1 and (1-lambda)^n (limit - current + d) <= d |
| EstimatorTrips.LowerTripsWithin | pkg/stat/estimator.go:65-71 | If every observation is below the lower limit by at least d > 0 the statistic has tripped after ceil((current - limit)/(lambda d)) records |
| EstimatorTrips.LowerConstantStreamTripsExactly | pkg/stat/estimator.go:65-71 | Against the constant stream limit - d it has tripped after n records exactly when n >= 1 and (1-lambda)^n (current - limit + d) <= d |
| EstimatorTrips.MirrorImages | pkg/stat/estimator.go:58-97 | From the same collected baseline, lower testing of the observations reflected about the mean is at every step the reflection of upper testing of the originals, so both trip at the same step |
| EstimatorSymmetry.ShiftKeepsPhasesIff | pkg/stat/estimator.go:72-84 | For log-normal statistics adding a constant to all transformed observations keeps the whole sequence of phases if and only if it does not move the first usable baseline |
| EstimatorSymmetry.VaryingWindowIsBaseline | pkg/stat/estimator.go:72-84 | It keeps them whenever the first full window that is not constant has a positive mean in both streams |
| EstimatorSymmetry.ShiftEquivariant | pkg/stat/estimator.go:72-84 | With the baseline in the same place the phase is the same, and average and limit are shifted by the constant |
| EstimatorSymmetry.ScaleEquivariant | pkg/stat/estimator.go:37-100 | For log-normal statistics the base of the logarithm does not matter: scaling all transformed observations by a positive constant keeps the phase and scales average and limit, on every stream |
| Smoothing.ClosedForm | pkg/stat/estimator.go:119-121 | The iterated fold equals the exponentially weighted sum |
| Smoothing.GapGeometric | pkg/stat/estimator.go:119-121 | Against a constant stream the distance to it shrinks by the factor 1-lambda at each step |
| Smoothing.SteadyIff | pkg/stat/estimator.go:119-136 | lambda/(2-lambda) times the variance of the observations is the one variance of the average that another uncorrelated observation leaves as it is |
| Smoothing.VarianceSettles | pkg/stat/estimator.go:119-136 | The variance that the weights of ClosedForm give the average of n uncorrelated observations is that value up to the factor 1-(1-lambda)^(2n) |
| Pdf.VariancePositiveIff | pkg/stat/pdf.go:130-147 | At the computed mean the sample variance is never negative and positive exactly when the window is not constant |
| Pdf.MeanIff | pkg/stat/pdf.go:130-139 | The mean is the one value around which the deviations of the window cancel |
| Pdf.VarianceByPairs | pkg/stat/pdf.go:141-147 | n(n-1) times the sample variance is the sum of the squared differences over all pairs of values |
| Pdf.EstimatesShift | pkg/stat/pdf.go:130-147 | Shifting all values shifts the mean and leaves the variance alone |
| Pdf.EstimatesScale | pkg/stat/pdf.go:130-147 | Scaling all values scales the mean, and the variance by the square |
| Pdf.MeanNormal | pkg/stat/pdf.go:130-139 | The loop computes the mean, zero for no values |
| Pdf.VarianceNormalLoop | pkg/stat/pdf.go:141-147 | The loop computes the squared deviations over n-1, undefined for one value |
| TestStatistics.TestStatistic.Record | pkg/stat/estimator.go:37-100 | The imperative estimator over its ring and machine takes exactly the step of the model and returns an error exactly when the model does |
| TestStatistics.TestStatistic.Transition | pkg/stat/estimator.go:125-130 | A manual transition empties the series when asked, even when the machine refuses it, and moves exactly along declared edges |
| TestStatistics.TestStatistic.HasAlarmed | pkg/stat/estimator.go:104-111 | True exactly in the two tripped phases |
| TestStatistics.TestStatistic.CalculateLimit | pkg/stat/estimator.go:135-150 | Computes the limit used in all theorems above, with 5.7 for a factor that cannot be computed; for lambda = 2 and for a negative estimator variance the limit is no finite number |
| TestStatistics.NewEWMAStatistic | pkg/stat/estimator.go:154-170 | Fails exactly for a capacity below one, otherwise gives a statistic in UCLInitial with nothing recorded |
| TestStatistics.NewMachine | pkg/stat/state.go:17-27 | The machine built from the transition groups allows exactly the declared edges of the seven phases |
| TestStatistics.Test.Record | pkg/stat/stattest.go:24-31 | Statistic i takes its step exactly when no statistic before it failed, the rest are untouched, and the call succeeds exactly when none failed |
| TestStatistics.Test.Transition | pkg/stat/stattest.go:33-40 | Statistic i is moved exactly when the machines before it all allowed the move |
| TestStatistics.Test.HasAlarmed | pkg/stat/stattest.go:42-49 | True exactly when some statistic has alarmed |
| TestStatistics.AllReachedIff | pkg/stat/stattest.go:24-31 | All statistics see the observation exactly when there is only one, or it is defined and none before the last restarts from Reset with a stale average at its stale limit |
| Series.RotatedIsView | pkg/metric/series.go:41-71 | Reading the ring from its oldest slot gives the last `capacity` observations in time order once full; before that its slots are the observations followed by zeros |
| Series.RecordHolds | pkg/metric/series.go:55-71 | Overwriting the oldest slot keeps the ring layout for the log with the new observation appended |
| Series.Series.Record | pkg/metric/series.go:55-62 | Appends to the observations the ring stands for, or ignores the value when there are no slots |
| Series.Series.Reset | pkg/metric/series.go:29-34 | Leaves a valid empty series in the same buffer |
| Series.Series.Values | pkg/metric/series.go:41-52 | Returns the observations since reset followed by zeros until full, then the last `capacity` of them in time order |
| Series.Series.RecordAll | pkg/metric/series.go:113-120 | WithValues agrees with recording the values one by one |
| Series.NewSeries | pkg/metric/series.go:84-120 | Refused exactly for a capacity below one or an empty name, otherwise holds the values of all WithValues options in order and bears the last name given |
| Series.OptionsTakeEffect | pkg/metric/series.go:100-120 | Each WithValues adds its values behind those given before and leaves the name alone, each WithName replaces the name and leaves the values alone |
| Sampled.WindowedRun | pkg/metric/sampled.go:40-50 | Under any interleaving of Record, Tick and Reset the ring has received exactly the transforms of the windows closed since the last reset, zero for an empty one, and the open window is pending |
| Sampled.SplitLosesNothing | pkg/metric/sampled.go:88-96 | The closed windows followed by the pending one are all observations since the last reset, in order |
| Sampled.SampleSumConserved | pkg/metric/sampled.go:145-151 | With SampleSum the flushed total plus the pending total is the observed total |
| Sampled.DirectRun | pkg/metric/sampled.go:58-70 | Without a window every observation goes to the ring and none is pending |
| Sampled.SampledSeries.Record | pkg/metric/sampled.go:88-96 | Takes the Record step of the model |
| Sampled.SampledSeries.Tick | pkg/metric/sampled.go:41-50 | One round of the ticker goroutine takes the Tick step of the model |
| Sampled.SampledSeries.Reset | pkg/metric/sampled.go:75-80 | Clears ring and pending window |
| Sampled.NewSampledSeries | pkg/metric/sampled.go:23-70 | Refused exactly when the underlying series is, which gets all the options; direct exactly when the window is not positive |
| Sampled.SampleSum | pkg/metric/sampled.go:145-151 | Sum of the window |
| Sampled.SampleAverage | pkg/metric/sampled.go:116-121 | Mean of the window, zero for none |
| Sampled.SampleMin | pkg/metric/sampled.go:123-132 | An element below which none lies, zero for none |
| Sampled.SampleMax | pkg/metric/sampled.go:134-143 | An element above which none lies, zero for none |
| Counters.PruningIsOnDemand | pkg/metric/counter.go:89-138 | With fixed settings, what History and HistoryInclusive report is newHistory of the complete history kept without limits, and the current counter is the same; the clock may run backwards unless the window is negative, as long as the report is not made before the current window started |
| Counters.RunsStaySorted | pkg/metric/counter.go:89-100 | A counter whose window is not negative keeps its history sorted by start under any clock |
| Counters.OrdersAgreeIff | pkg/metric/counter.go:61-66 | On everything History and HistoryInclusive can report, under any settings and clock, the documented order of pruning gives the same as the code's if and only if the window is not negative |
| Counters.PruneTwice | pkg/metric/counter.go:121-138 | Pruning early loses nothing that a later pruning of the extended history would have kept |
| Counters.PrunedIsSuffix | pkg/metric/counter.go:121-138 | On a history sorted by start, pruning keeps exactly the suffix of counters beyond neither limit |
| Counters.PruningOrderIrrelevant | pkg/metric/counter.go:61-66 | On sorted histories the documented order, age before count, gives the same result |
| Counters.PruningOrdersAgreeIff | pkg/metric/counter.go:121-138 | For any history at all the two orders agree if and only if a limit does nothing on its own, or all counters before the most recent `max` are too old, or none of those `max` is |
| Counters.PruningOrderMattersUnsorted | pkg/metric/counter.go:61-66 | For every negative window, a run of one add with a clock that has run backwards after which the documented order gives another report |
| Counters.CounterIsPartition | pkg/metric/counter.go:89-100 | Without limits, history plus current counter are the counts of the tumbling-window partition of the timed log of adds: consecutive blocks, each opening with its first add no earlier than the end of the previous window, each add before the end of its window |
| Counters.PartitionExists | pkg/metric/counter.go:89-100 | Every log with a monotone clock has such a partition |
| Counters.CountsConserved | pkg/metric/counter.go:31-33 | Reported counts sum to everything added exactly when no window counts to 2^63, and modulo 2^64 always |
| Counters.EverythingAddedIsReported | pkg/metric/counter.go:89-100 | For every monotone log, history plus current value report everything added since the start, exactly below 2^63 and modulo 2^64 always |
| Counters.ResetForgets | pkg/metric/counter.go:141-144 | After Reset the counter runs like a new one of the same duration |
| Counters.ValueCountsOpenWindow | pkg/metric/counter.go:74-86 | The value is the count of the last window of the partition while that window lasts, its end included, and zero afterwards |
| Counters.ZeroDurationValueIff | pkg/metric/counter.go:74-86 | Without a duration the value is the total of all adds if and only if the clock has not moved past the start or that total is zero |
| Counters.ZeroDurationLosesValue | pkg/metric/counter.go:74-86 | Three added to a counter without a duration read three at its start and zero one tick later |
| Counters.NewHistoryLoop | pkg/metric/counter.go:121-138 | The slice-and-filter loop computes the pruning function of the theorems above |
| Counters.WindowedCounter.constructor | pkg/metric/counter.go:147-151 | An empty history and a zero counter opening now |
| Counters.WindowedCounter.Empty | pkg/metric/counter.go:57-72 | An empty struct has no current counter |
| Counters.WindowedCounter.Add | pkg/metric/counter.go:89-100 | Takes the Add step, counting in the open window or closing it into the pruned history and opening one at the current time; on an empty struct it dereferences nil |
| Counters.WindowedCounter.Value | pkg/metric/counter.go:75-86 | The value that the theorems on the open window and on zero durations are about; on an empty struct it dereferences nil |
| Counters.WindowedCounter.History | pkg/metric/counter.go:103-112 | The pruned history, without the current counter while its window is open |
| Counters.WindowedCounter.HistoryInclusive | pkg/metric/counter.go:116-118 | The pruned history including the current counter |
| Counters.WindowedCounter.Reset | pkg/metric/counter.go:141-144 | Forgets the history and opens a zero counter of the same duration |
| BusSafety.RunsStayWired | pkg/eventbus/bus.go:68-216 | On every run whatever, with subscribers on several topics and unsubscribing, channels hold what was sent and not received, no sender holds the lock during shutdown, a done channel is closed by its own once or by Unsubscribe, and the notifier's wait count is its unfinished watchers |
| BusSafety.RunsAreSafe | pkg/eventbus/bus.go:68-194 | From any sound state, on every interleaving of dispatches, senders, receives, subscribes, done calls and one shutdown, with each subscriber on one topic, nothing is sent on a closed channel and nothing is closed twice |
| BusSafety.RegisteredSeparate | pkg/eventbus/bus.go:177-186 | The channels Shutdown closes are distinct exactly when no channel is listed twice, under one topic or two, whatever order the map is ranged in |
| BusShutdown.NothingSentAfterShutdown | pkg/eventbus/bus.go:151-159 | Once shutdown has started no channel gains an event on any run whatever: contents only ever lose from the front |
| BusShutdown.NilMeansEveryoneIsDone | pkg/eventbus/bus.go:169-216 | If Shutdown returns nil, the done channel of every subscriber there was when it took the lock has been closed, by its ShutdownFunc or by Unsubscribe, on any run whatever before and after |
| BusShutdown.ShutdownFaultsIff | pkg/eventbus/bus.go:177-186 | For any subscriptions, the closing loop panics exactly when a channel is listed twice or a listed channel was closed before |
| BusShutdown.PanicsIffSomeoneOnTwo | pkg/eventbus/bus.go:68-91 | On a bus nobody has unsubscribed from, Shutdown panics exactly when some Subscribe call named two or more topics, and exactly then some continuation panics without further such calls and without unsubscribing |
| BusShutdown.CanFaultIff | pkg/eventbus/bus.go:43-194 | In any reachable state some continuation on which subscribers name one topic and nobody unsubscribes panics exactly when the state is not sound: it has panicked, a done channel was closed behind its once, before shutdown a channel is listed twice or a listed or pending one is closed, or the closing loop is about to close one twice |
| BusShutdown.HarmlessRunsAreSafe | pkg/eventbus/bus.go:68-194 | From any sound state, every run without a risky step is safe, before, during and after shutdown, unsubscribing included; risky are, before shutdown, a Subscribe naming two or more topics, and an Unsubscribe that passes a done channel, or whose channel is listed and closed already, met twice, or, before shutdown, has a sender waiting |
| BusShutdown.CanFaultAfterIff | pkg/eventbus/bus.go:68-163 | After any run before shutdown, a panic is possible without another risky call if and only if it was at the start or some step of the run was risky |
| BusShutdown.UnsubscribeCanFaultIff | pkg/eventbus/bus.go:94-115 | For any subscriptions, after unsubscribing some continuation on which subscribers name one topic and nobody unsubscribes again panics exactly when one did before, or the channel was listed and already closed or is met twice, or listed with a sender waiting before shutdown, or the subscriber's done channel was passed |
| BusShutdown.UnsubscribeThenSendPanics | pkg/eventbus/bus.go:151-159 | On every sound bus before shutdown, unsubscribing a listed channel while a sender for it is waiting makes that sender panic |
| BusShutdown.UnsubscribeThenShutdownFuncPanics | pkg/eventbus/bus.go:43-115 | For code inside the package, which alone can get at a done channel: on every sound bus before shutdown, passing it to Unsubscribe and then calling the ShutdownFunc panics |
| BusShutdown.NewBusCanPanic | pkg/eventbus/bus.go:62-163 | The shortest panicking run of a new bus in exported calls: Subscribe, Dispatch, then Unsubscribe before the sender gets the lock, from a state that was sound until then |
| BusDelivery.DispatchCreatesOnePerOccurrence | pkg/eventbus/bus.go:119-163 | Before shutdown a dispatch creates one sender per occurrence of a channel under the given topics plus the default one, afterwards none |
| BusDelivery.SendersOnlyAdvance | pkg/eventbus/bus.go:151-159 | Over any run a sender keeps its event and channel and is pending, holding, sent or dropped, never going back; sent and dropped are final |
| BusDelivery.DeliveriesConserved | pkg/eventbus/bus.go:68-163 | On every run from a new bus, with subscribers on several topics and unsubscribing, a channel's sends are what was received, in order, plus at most one buffered event, and are exactly the events of its finished senders |
| BusProgress.DispatchReachesSubscriber | pkg/eventbus/bus.go:62-163 | Before shutdown a new subscriber gets one sender of a dispatched event for each time a topic of the event, or the default one, was named when it subscribed, naming none counting as the default one |
| BusProgress.DroppedOnlyAfterShutdown | pkg/eventbus/bus.go:151-157 | On every run from a new bus, unsubscribing included, an event is dropped only once shutdown has started |
| BusProgress.PendingCanDeliver | pkg/eventbus/bus.go:151-159 | In every reachable state before shutdown a waiting sender has a continuation on which exactly its event is sent, or, when its channel has been closed, one that panics |
| BusProgress.EveryoneIsTold | pkg/eventbus/bus.go:177-186 | Once Shutdown has done its closing, every channel that was listed when it took the lock is closed, whatever steps lie in between |
| BusProgress.ShutdownCanComplete | pkg/eventbus/bus.go:169-216 | From every sound state before shutdown there is a continuation on which Shutdown returns nil without a panic, every subscriber calling its ShutdownFunc and every watcher seeing it |
| EventBuses.EventBus.Subscribe | pkg/eventbus/bus.go:68-91 | The loop over topics appends the channel to each list, the default topic standing in for none, and registers the done channel |
| EventBuses.EventBus.Dispatch | pkg/eventbus/bus.go:119-163 | The loops spawn exactly the senders of the Dispatch step, skipping topics without subscribers, and none after shutdown started |
| EventBuses.EventBus.Unsubscribe | pkg/eventbus/bus.go:94-115 | The loops over all lists, in any order, and over the done channels panic exactly when the channel is listed and was closed or is met twice, or the done channel is; otherwise every list loses its first occurrence |
| EventBuses.RangeOverIs | pkg/eventbus/bus.go:98-106 | Whatever the order of the map, ranging over it panics exactly when the channel is listed and was closed before, is listed under two topics, or is met again in one list |
| Unsubscribing.RemoveWhileRanging | pkg/eventbus/bus.go:99-106 | Removing a channel in place while ranging: the list loses its first occurrence, and a second close panics exactly when the channel was closed before or is met again in the shifted array |
| Unsubscribing.CleanRemovalIff | pkg/eventbus/bus.go:99-106 | The removal closes once and leaves no trace exactly when the channel was listed once; it silently leaves the closed channel listed exactly when its only other occurrence is right behind the first and not at the end |
| Unsubscribing.Delete | pkg/eventbus/bus.go:103-103 | The in-place shift of the backing array, whose last slot keeps its old value |
| Fsm.NonceSingleUse | pkg/fsm/nonce.go:60-73 | On every run with a random source that does not repeat itself each nonce authorises at most one state change, and every replay is refused |
| Fsm.AttemptSpendsNonce | pkg/fsm/nonce.go:60-96 | Any attempt, right or wrong, uses up the nonce it was made against for ever |
| Fsm.DeadStaysDead | pkg/fsm/nonce.go:60-107 | A nonce that was issued and can no longer authorise anything never will again |
| Fsm.CrashIff | pkg/fsm/nonce.go:43-73 | An attempt dereferences nil exactly when an earlier one was refused with no replacement nonce to be had and no Reset has generated one since |
| Fsm.WrongNonceThenCrash | pkg/fsm/nonce.go:60-73 | A crashing run of every machine that is not stopped: one wrong nonce while the random source fails, then any attempt |
| Fsm.GuardedStepIsMachineStep | pkg/fsm/nonce.go:43-73 | The machine inside takes exactly the steps of a plain one whose attempts are refused when the nonce is spent or wrong |
| Fsm.GuardedAttemptIsSpecified | pkg/fsm/nonce.go:43-96 | The outcome of every attempt of every run: a crash if the nonce was lost, stopped if the option is on and an attempt failed since the last Reset, refused for a nonce other than the live one or an edge not declared, and otherwise a move to the target |
| Fsm.GeneratedNonceWorks | pkg/fsm/nonce.go:43-73 | The nonce generated by one operation authorises the next attempt if and only if the machine is not stopped and the edge was declared |
| Fsm.LiveIs | pkg/fsm/nonce.go:43-96 | The one nonce that can still authorise anything is the last one generated by an operation that did not crash; after an attempt that generated none there is none |
| Fsm.TraceIsPath | pkg/fsm/fsm.go:67-90 | The states of a run are a path in the declared edges, restarted only by Reset |
| Fsm.AttemptIsSpecified | pkg/fsm/fsm.go:73-90 | The result of every attempt of every run of a plain machine: stopped, refused for its nonce, not allowed, or a move to the target, read off the declared edges and the failures since the last Reset |
| Fsm.FrozenUntilReset | pkg/fsm/options.go:29-46 | From its first error a stoppable machine fails every attempt and keeps its state until Reset |
| Fsm.StoppedIff | pkg/fsm/options.go:36-46 | A machine counts as stopped exactly when an attempt has failed since the last Reset |
| Fsm.MapHoldsDeclaredEdges | pkg/fsm/options.go:8-25 | A transition is in the map exactly when its edge was declared |
| Fsm.T | pkg/fsm/transition.go:17-26 | Exactly the edges from one state to each of the given ones, in order |
| Fsm.FlattenLoop | pkg/fsm/transition.go:28-34 | Concatenates the groups in order |
| Fsm.Machine.constructor | pkg/fsm/fsm.go:32-44 | The machine holds the edges of all options in order and is stoppable exactly when asked to be |
| Fsm.Machine.Allowable | pkg/fsm/fsm.go:51-54 | True exactly when the target is listed for the state |
| Fsm.Machine.TransitionGuarded | pkg/fsm/fsm.go:73-90 | Stop guard before nonce guard before edge check; any failure marks the machine stopped, and the nonce is consumed once it is checked |
| Fsm.Machine.Reset | pkg/fsm/fsm.go:63-71 | Back to the initial state with the stop condition cleared |
| Fsm.Nonce.Check | pkg/fsm/nonce.go:86-96 | Matches at most once, however often it is called |
| Fsm.MachineNonce.Transition | pkg/fsm/nonce.go:60-73 | Takes the guarded step: replaces the nonce after success and failure, keeps the spent one when a replacement fails after success, loses it when that happens after failure |
| Fsm.MachineNonce.Reset | pkg/fsm/nonce.go:43-51 | Resets the machine and replaces the nonce, keeping the old one when none can be generated |
| LogOptions.SortedAmounts | pkg/monny/proc/logopt.go:79-89 | Applied in priority order, however many histories and commands there are: the last history holds; if it is below -1 the first command decides between error and panic; otherwise any failing command is an error; otherwise every command contributes the ends that no filter excludes |
| LogOptions.SortedGivesWanted | pkg/monny/proc/logopt.go:79-89 | With at most one command and no two different histories this is the configuration read off the members of the list alone |
| LogOptions.FailsIff | pkg/monny/proc/logs.go:43-47 | The constructor returns an error exactly when some command's pipes fail, unless a history below -1 makes the first command's queue panic before that, and panics exactly in that case |
| LogOptions.StreamsStayApart | pkg/monny/proc/logopt.go:110-115 | Exactly the streams of the command that no option excludes are read, each stream of a wrapped process is copied to monny's stream of the same name and to no other, and a piped process to standard output, unless an option excludes that stream or all output |
| LogOptions.StartEmitters | pkg/monny/proc/logs.go:52-64 | The loop starts one goroutine per source with the sinks of the theorem above |
| LogOrder.OrderDoesNotMatterIff | pkg/monny/proc/logs.go:42-47 | All sorted permutations of the options give the same outcome if and only if they are settled: without a command, one history; if some command fails, all histories at least -1 or all commands failing; otherwise all histories below -1, or one history, at least -1, and one kind of command, or both inputs and some output excluded |
| LogOrder.OrderDoesNotMatter | pkg/monny/proc/logopt.go:10-13 | In particular they do with at most one command and no two different histories |
| LogOptions.Builder.Apply | pkg/monny/proc/logopt.go:103-206 | Each option closure changes the builder as its step says, fails exactly when a pipe does, and panics exactly when the queue's capacity plus one is negative |
| LogOptions.FilterSinkLoop | pkg/monny/proc/logopt.go:209-220 | Keeps the sinks other than the target, in order |
| LogOptions.FilterSourceLoop | pkg/monny/proc/logopt.go:223-234 | Keeps the sources other than the target, in order |
| LogOptions.NewLogProcessor | pkg/monny/proc/logs.go:38-66 | Gives the outcome of the sorted options; unambiguous options give the configuration they ask for, whatever sorted permutation the sort produced; starts the goroutines of that configuration |

## Left out

- EstimatorRuns.FreshRunIsSpecified: floats are reals, so rounding, NaN and infinities are not modelled beyond three cases: an undefined transform is a rejected observation, a variance divided by zero is undefined, and for `lambda` below 0 or from 2 on the limit is no finite number.  Recording is modelled for 0 <= lambda < 2 only: the theorems that ask no more than lambda != 2 say nothing about the source outside that range, where its limit is NaN or infinite. math.Sqrt is a parameter that gives the non-negative root.
- TestStatistics.TestStatistic.Record: only direct mode, which is LogNormal, or Poisson without a sampling window; with a window the average folds raw observations while the ring holds sampled ones, and the two parts are modelled separately. The logarithm is applied by the caller.
- TestStatistics.Test.Record: assumes that the statistics of a test share no series and no machine, which the constructors guarantee.
- EstimatorBands.RunsStayBanded: manual transitions are restricted to Reset, UCLInitial and LCLInitial; ManualKeepsBandIff says exactly what the others do.
- BusSafety.RunsAreSafe: assumes one topic per subscriber, one Shutdown call, and no further Unsubscribe; HarmlessRunsAreSafe and CanFaultAfterIff replace the assumptions on the subscribers by the exact ones.
- EventBuses.EventBus.Dispatch: the goroutine per topic that only spawns the senders is collapsed into the dispatch.
- BusProgress.PendingCanDeliver: progress is stated as the existence of a continuation; that every fair run gets there is not.
- The preference of a waiting writer over new readers, a second Shutdown call, and a subscriber that closes its own event channel.
- Counters.WindowedCounter.Add: every call reads the clock once, though the source reads it again inside newHistory and when it opens a window; times are unbounded integers, so time.Duration saturation is not modelled.
- Counters.WindowedCounter.History: returns a value, so the aliasing of the returned slice with the counter's own backing array is not captured. The lock wrappers ConcurrentCounter and ConcurrentWindowedCounter and the plain counter's Reset add only easy members.
- Sampled.WindowedRun: a tick is one whole step; the ticker's timing and its shutdown are left out.
- Series.NewSeries: a name is a string without its metadata; `pkg/metric/name.go` and Test.Metric are left out, since their output depends on an encoder outside the repository.
- Fsm.NonceSingleUse: the random source is a parameter that may fail but does not repeat a value.
- LogOrder.OrderDoesNotMatterIff: commands are distinct values and sources are compared without their readers, so swapping two wrapped commands counts as no difference; one `*exec.Cmd` passed twice, whose second StdoutPipe always fails, is not modelled.
- LogOptions.NewLogProcessor: pipes are given as succeeding or failing, sort.Slice is any sorted permutation, a capacity too large to allocate is not modelled, and the readers, writers, scanner loop, queue contents and ticker are left out.
- Event payloads and their gob encoding (`pkg/eventbus/event.go`) are opaque.
- The numeric constants and logarithms behind k (`pkg/stat/k.go`, `pkg/stat/calibrate.go`) and the random simulation in `pkg/rng`; k is an arbitrary real or undefined.
- Process control, signals, /proc, reports, gRPC, and flag, YAML and environment parsing (`pkg/monny`, `pkg/pb`, `cmd/monny`).
