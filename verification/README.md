# Verified model of lspd

lspd is a Lightning service provider daemon. It intercepts HTLCs, opens channels just in time for registered payments,
keeps a history of forwards, attributes revenue to tokens and notifies mobile clients. This project models the parts
where the behaviour is hardest to see from the code and proves what they promise.

The concurrent parts are step systems. A `State` holds the fields of the Go objects and the positions of the goroutines,
an `Event` is one mutex region, channel operation, database statement or call to the node, `Exec` runs a list of events,
and the theorems hold after every run, for any interleaving, any failing call and any restart. Beside each step system
stands a class with the fields the Go object has. For each event there is a method that does what that region or call
does and is proved to make exactly that step (`Did`); the synchronizers' loops are methods put together from these
steps, over a history that stays the same while they page. Loops that compute something are methods with loops, proved
against functions whose properties are lemmas.

| file | what it models |
|---|---|
| `HtlcRelay.dfy`, `RelayServer.dfy` | the CLN plugin's HTLC relay: send queue, in-flight map, one subscriber, timeouts |
| `RelayAnswers.dfy`, `RelayDeadlines.dfy` | which answers reach CLN and in which order, and how long an HTLC is kept for a subscriber |
| `RelayProgress.dfy` | what the relay does by itself from every reachable state: the subscriber timeout, and what the replay is for |
| `ChannelOpening.dfy`, `OpeningOutcomes.dfy`, `OpeningRuns.dfy`, `InterceptHandler.dfy` | single flights per payment hash, guards, channel opens, the payments table, and how every HTLC ends |
| `OpeningFees.dfy` | fee acceptance in 64-bit arithmetic, proportional forwarding, channel capacity |
| `RevenueMatching.dfy`, `RevenueRecords.dfy` | the merge joins of the revenue report, on values and on shared records |
| `RevenueWalks.dfy`, `InternalForwards.dfy`, `RevenueAttribution.dfy` | the walk over lists that are not sorted on what it compares, the rounds over internal forwards, and all passes together |
| `RevenueReport.dfy`, `RevenueBalance.dfy` | the aggregation per node and token, and what its figures come to in the amounts |
| `ForwardHistory.dfy`, `ClnForwardSync.dfy`, `ClnSyncSteps.dfy` | the two cursors of the CLN forward synchronizer |
| `LndSync.dfy` | the LND forward synchronizer with its cursor in whole seconds |
| `Waiters.dfy`, `WaiterLimits.dfy`, `WaiterSignals.dfy`, `LndClient.dfy` | subscriptions of callers that wait for a peer or a channel, the limits of their buffers and the account of their signals |
| `ShortChannelId.dfy` | short channel ids as text and as numbers |
| `Framing.dfy`, `PluginPipe.dfy` | messages separated by two newlines, and request batches |
| `NotificationCache.dfy`, `NotificationService.dfy` | the cache of recent notifications |

What turned out not to hold of the code is stated with an input or run at which it fails and, for all inputs, with the
condition under which it holds:

- The fee check charges the promised fee exactly when the product fits in 64 bits or the minimum fee dominates, and
  compares it with the right margin exactly when that fits too (`FeeExact`, `AcceptsExact`; `OverflowUndercharges`,
  `MarginWraps`).
- Whatever comes in for a payment, even more than was registered, what is sent stays within the share of it exactly
  unless the registered outgoing amount is negative and something was forwarded. The promised fee is left, of the
  registered amount or of what came in if that is more, exactly under the condition `KeepsFee`: for a registered amount
  that is not negative, unless the outgoing amount is negative and something was forwarded or the fee is more than the
  registered amount. For a negative outgoing amount the fee half needs shares that fit in 64 bits (`SendsLeaveFee`,
  `ForwardsLeaveFee`; `NegativeOutgoing`, `ShareWraps`).
- What is sent is not bounded by the registered amount: a payment that comes in twice is forwarded twice (`PaidTwice`).
  It fits the opened channel if no more than the registered amount came in; otherwise it fits if the share of all of it
  does, and only if that share is not over the capacity by more than rounding (`AcceptedPaymentFits`, `FitsIfShareDoes`;
  `TwiceDoesNotFit`).
- HTLCs that join a flight are sent their own share exactly when it is that of the HTLC that leads it
  (`EveryHtlcItsShareIff`, `EvenFlightsLeaveFee`; `JoinerOverpaid`).
- The pass for receives compares the incoming side over a list sorted on the outgoing side. It makes as many pairs as
  possible exactly when the forwards behind an earlier incoming key are not needed for that (`MaximumIff`,
  `ReceivePassMaximumIff`; `ReceiveMissesPair`).
- A round over internal forwards compares the incoming side over both lists, neither of which is sorted on that. It pairs
  exactly the linked forwards, and as many as possible exactly if of two free forwards of the same hop one is always linked
  (`RoundPairsLinked`, `RoundMaximumIff`; `RoundMissesPair`).
- A forward sync round skips a complete forward exactly when it lies behind a full page of incomplete ones (`ReachesAll`;
  `IncompletePageHides`).
- The LND loop ends exactly when no second holds a full page (`StopsIffUncrowded`; `FullSecondLoops`).
- Requests are served in order exactly when no batch holds a null request after its first one (`InOrderIffWhole`;
  `NullSwallows`).
- With no subscriber, the relay answers an HTLC by itself exactly unless the listener waits for it without a timer; that needs
  a send that succeeds on an ended stream (`EveryPlanAnswersIff`, `AlwaysTimesOut`; `TimerlessRun`).
- The registered subscriber has been sent everything in flight throughout a run exactly if no send of the run succeeds
  on another stream (`OfferedIffNeverLate`, `AlwaysOffered`; `NotOfferedRun`).
- Some continuation lets a listener send on a subscribed channel exactly unless the channel is full and its call is on
  the way out, and then both wait for each other for good. Up to ten events for its key while a call is subscribed never
  come to that (`SendsIffNotJammed`, `FewEventsNeverJam`; `JamRun`).
- After a call for channels has returned, a send on its closed gathering channel is possible exactly if a signal had not been
  gathered by then (`PanicsIffLoose`; `LooseRun`).
- The id read from three numbers shows the low bits of each, and the upper bits of a wide index are joined with the height
  (`ReadFields`, `PackExact`; `NegativeWraps`).
- A short channel id text survives parsing and printing exactly when it is canonical (`ToStringParse`; `SignIsLost`).

## Model

| member | source | states |
|---|---|---|
| `HtlcRelay.NoHtlcLost` | cln_plugin/server.go:200-419 | after every run an accepted HTLC is returned, being returned, in the receive queue, the send queue, the handler's hand or the in-flight map, and the last three never share an id |
| `HtlcRelay.StreamsInOrder` | cln_plugin/server.go:178-190 | on every stream ever opened, replayed and live sends carry strictly increasing arrival numbers |
| `HtlcRelay.ArrivalOrder` | cln_plugin/server.go:200-209 | arrival numbers are the order of the calls that enqueued the HTLCs |
| `HtlcRelay.ArrivedOnce` | cln_plugin/server.go:200-209 | an id counts as arrived exactly when it was enqueued in the run |
| `HtlcRelay.InOrderLine` | cln_plugin/server.go:264-327 | in-flight map, held message and send queue in a row list arrivals in order |
| `HtlcRelay.StreamEndsItself` | cln_plugin/server.go:149-164 | at most one stream is registered, and the end of a registered stream removes that one |
| `HtlcRelay.NoMissedSubscriber` | cln_plugin/server.go:166-197 | every captured announcement channel is current or closed, a waiter can wake as soon as a subscriber is registered, and the current channel is never closed already |
| `HtlcRelay.Safety` | cln_plugin/server.go:149-419 | order, custody, single subscriber and wake-ups hold after every run |
| `HtlcRelay.SendEffect` | cln_plugin/server.go:302-318 | sending appends the held message to the in-flight map, and a failed send leaves the map as it was |
| `HtlcRelay.DeleteKeeps` | cln_plugin/server.go:221 | deleting a key keeps the order of the others and loses no other key |
| `RelayAnswers.AnsweredIff` | cln_plugin/server.go:200-419 | after every run, the answer for an id is in the listener's or handler's hand, on the receive queue, being returned or returned, if and only if a client has sent one or the id has timed out |
| `RelayAnswers.ClientAnswered` | cln_plugin/server.go:404-409 | no answer of a client is dropped |
| `RelayAnswers.AnswersFlow` | cln_plugin/server.go:211-419 | after every run, the receive queue, the id in the consumer's hand and the returned ids are what was delivered, first in first out; the n-th delivery of the listener is the n-th client's answer or in-flight timeout, the n-th of the handler its n-th timeout, and the n-th message taken the n-th that arrived |
| `RelayAnswers.QueuedInterleaves` | cln_plugin/server.go:293-347 | what is delivered is made of the clients' answers with the in-flight timeouts and of the handler's timeouts, each in its order, and of nothing else |
| `RelayDeadlines.HandlerTimeoutIsLate` | cln_plugin/server.go:206-297 | in every run, the handler gives an HTLC up no sooner than one subscriber timeout after the event at which it arrived |
| `RelayDeadlines.ListenerTimeoutIsLate` | cln_plugin/server.go:176-396 | in every run, the listener gives an HTLC up no sooner than one timeout after its arrival and after every replay of it that had got through when the listener captured it |
| `RelayDeadlines.WaitsItsTimeout` | cln_plugin/server.go:275-297 | after every run, a held message may be given up exactly from one timeout after its arrival on |
| `RelayDeadlines.OldestWaitsItsTimeout` | cln_plugin/server.go:364-396 | after every run, the captured oldest message may be given up exactly from one timeout after the last arrival or replay of it before it was captured |
| `RelayDeadlines.DeadlinesSafe` | cln_plugin/server.go:176-396 | the invariant behind it: every deadline is one timeout after the arrival or the last replay that got through |
| `RelayProgress.EveryPlanAnswersIff` | cln_plugin/server.go:264-402 | with no subscriber, every schedule of the relay's own steps that goes on as long as it can, fair or not, comes to the answer if and only if the HTLC is not waited for without a timer |
| `RelayProgress.Lowers` | cln_plugin/server.go:264-402 | each own step of handler, listener and consumer lowers a well-founded rank, so only finitely many are left without help |
| `RelayProgress.DiligentPlan` | cln_plugin/server.go:264-402 | such a schedule exists from every state |
| `RelayProgress.TimesOutIff` | cln_plugin/server.go:266-300 | with no subscriber, some run of the relay's own steps answers if and only if the HTLC is not waited for without a timer |
| `RelayProgress.TimerlessRun` | cln_plugin/server.go:355-402 | a concrete run in which the listener waits without a timer for an HTLC that is in flight |
| `RelayProgress.AlwaysTimesOut` | cln_plugin/server.go:355-402 | if ended streams refuse sends, every such schedule answers every HTLC whenever there is no subscriber |
| `RelayProgress.TimersAlwaysSet` | cln_plugin/server.go:364-382 | then a listener without a timer has nothing in flight |
| `RelayProgress.NeverStuck` | cln_plugin/server.go:200-419 | from every reachable state some continuation returns any given HTLC |
| `RelayProgress.OfferedStepIff` | cln_plugin/server.go:178-196 | a step keeps that the registered subscriber has been sent everything in flight, exactly unless a send succeeds on another stream |
| `RelayProgress.OfferedIffNeverLate` | cln_plugin/server.go:178-196 | for every run, the registered subscriber has been sent every HTLC in flight at each of its points if and only if no send of the run succeeds on a stream other than the registered one |
| `RelayProgress.AlwaysOffered` | cln_plugin/server.go:178-196 | if ended streams refuse sends, the registered subscriber has been sent every HTLC in flight, after every run |
| `RelayProgress.NotOfferedRun` | cln_plugin/server.go:302-318 | a concrete run in which a late send leaves an HTLC in flight that the subscriber never got |
| `RelayServer.Server.constructor` | cln_plugin/server.go:61-77 | an empty relay |
| `RelayServer.Server.SendHtlcAccepted` | cln_plugin/server.go:200-209 | enqueues the HTLC with a deadline one subscriber timeout ahead and is the arrival step |
| `RelayServer.Server.Replay` | cln_plugin/server.go:178-190 | sends a prefix of the in-flight map in order and renews exactly the deadlines of that prefix |
| `RelayServer.Server.Register` | cln_plugin/server.go:192-196 | the announcement channel that is closed was open, whoever waits holds a closed one afterwards, and the new one is open |
| `RelayServer.Server.NewHtlcStream` | cln_plugin/server.go:166-197 | registers only if no stream is active and the whole replay got through |
| `RelayServer.Server.RemoveSubscriber` | cln_plugin/server.go:158-161 | the stream that was registered is its own, and none is afterwards |
| `RelayServer.Server.TakeRequest` | cln_plugin/server.go:250-260 | takes the message that arrived before all others in the queue |
| `RelayServer.Server.LookForSubscriber` | cln_plugin/server.go:266-274 | captures stream and announcement channel together: a stream that serves, or a channel that is still open |
| `RelayServer.Server.AwaitSubscriber` | cln_plugin/server.go:275-300 | keeps the message, and gives up only at its deadline |
| `RelayServer.Server.AnswerExpired` | cln_plugin/server.go:290-297 | the default answer is queued for a message that no client was ever sent |
| `RelayServer.Server.SendHeld` | cln_plugin/server.go:302-318 | the in-flight map gains the message at its end if the send succeeded and is as before otherwise |
| `RelayServer.Server.LookForAnswers` | cln_plugin/server.go:364-374 | captures stream, announcement channel and the oldest arrival in flight together |
| `RelayServer.Server.AwaitAnswers` | cln_plugin/server.go:376-402 | continues on an announcement or answers the captured oldest message at its deadline |
| `RelayServer.Server.ReceiveAnswer` | cln_plugin/server.go:404-418 | any answer is taken to be delivered, an error returns to polling |
| `RelayServer.Server.QueueAnswer` | cln_plugin/server.go:344-347 | puts the answer on the receive queue |
| `RelayServer.Server.TakeAnswer` | cln_plugin/server.go:216-219 | takes the oldest answer |
| `RelayServer.Server.ReturnAnswer` | cln_plugin/server.go:220-224 | removes the id from the in-flight map and returns it |
| `OpeningFees.FeeExact` | cmd/lspd/channel_opener_server.go:267-271 | the fee computed with wrapping arithmetic equals the promised fee if and only if the product fits, or the minimum dominates, or for products below 64 bits the wrapped product is worth no more than the minimum |
| `OpeningFees.AcceptsExact` | cmd/lspd/channel_opener_server.go:267-276 | for amounts of either sign, acceptance means a margin of at least the promised fee, exactly when the margin fits in 64 bits or stays below the fee after wrapping |
| `OpeningFees.OverflowUndercharges` | cmd/lspd/channel_opener_server.go:268 | a concrete payment that overflows and is accepted without its proportional fee |
| `OpeningFees.MarginWraps` | cmd/lspd/channel_opener_server.go:272-274 | a concrete registration whose margin wraps and that is accepted |
| `OpeningFees.ShareBounds` | interceptor/intercept_handler.go:226-227 | one part below 2^63, of whatever size, is its share rounded down, never more than the part |
| `OpeningFees.SplitBounds` | interceptor/intercept_handler.go:226-227 | over any parts below 2^63, however much they are together, the sum is the share of the sum less rounding of under one unit per part |
| `OpeningFees.FullSplit` | interceptor/intercept_handler.go:226-227 | for every split into n parts the forwarded sum lies between outgoing-(n-1) and outgoing |
| `OpeningFees.PartialSplit` | interceptor/intercept_handler.go:226-227 | no more than the pro-rata share is forwarded while the parts do not exceed the registered amount |
| `OpeningFees.SendsLeaveFee` | interceptor/intercept_handler.go:226-293 | for any parts below 2^63, however much they are together: the amounts sent, read as unsigned, stay within the share if and only if the outgoing amount is not negative or all parts are zero; a fee that was accepted is left of the registered amount, or of what came in if that is more, if and only if `KeepsFee` holds |
| `OpeningFees.NegativeOutgoing` | interceptor/intercept_handler.go:290 | an accepted registration whose forward reads as almost 2^64 |
| `OpeningFees.ShareWraps` | interceptor/intercept_handler.go:226-227 | an accepted negative outgoing amount whose share falls below 64 bits and is sent as zero |
| `OpeningFees.AcceptedPaymentFits` | interceptor/intercept_handler.go:384-387 | for an accepted payment in any parts below 2^63: the promised fee is left, and what is sent fits the opened capacity if no more than the registered amount came in, if and only if the outgoing amount is not negative, or all parts are zero and the fee is not above the registered amount; if more came in, it fits if the share of it does, and only up to rounding otherwise; after a payment that fits, the fee and the additional capacity are left but for less than one satoshi |
| `OpeningFees.FitsIfShareDoes` | interceptor/intercept_handler.go:384-387 | the amounts sent fit a capacity if the share of what came in does, and if they fit the share is over by less than the rounding |
| `OpeningFees.TwiceDoesNotFit` | interceptor/intercept_handler.go:384-387 | a payment that comes in twice is sent on as more than the capacity that is asked for |
| `OpeningFees.CapacityExact` | interceptor/intercept_handler.go:384-387 | the capacity is the registered amount in whole satoshi plus the configured additional capacity, or one more exactly if that is the amount reserved for public channels |
| `OpeningFees.Capacity` | interceptor/intercept_handler.go:385-387 | the capacity is never the amount reserved for public channels |
| `ChannelOpening.OneChannelPerPayment` | interceptor/intercept_handler.go:60-224 | in every interleaving a payment gets at most one channel plus one for each time a channel was lost sight of: the open call, the funding write or the process failed after the node had opened |
| `OpeningRuns.BoundReached` | interceptor/intercept_handler.go:383-432 | for every n, a run with n lost funding writes and n + 1 channels for one payment, so the bound is exact |
| `OpeningRuns.JoinerOverpaid` | interceptor/intercept_handler.go:60-63 | a run in which an HTLC that joins a flight is sent the leader's larger amount |
| `OpeningRuns.PaidTwice` | interceptor/intercept_handler.go:60-312 | a run in which a registered 1,000 msat come in twice and 900 msat are sent each time |
| `ChannelOpening.OnlyDirectHitsOpen` | interceptor/intercept_handler.go:73-224 | the guards let exactly direct hits on an unfunded, registered row with valid parameters and enough time lock through to an open; probes never |
| `ChannelOpening.GuardsDecide` | interceptor/intercept_handler.go:73-224 | resuming, each failure code, opening and using a recorded channel are each decided if and only if their condition on row, request, node and clock holds, and there is no other decision |
| `OpeningOutcomes.EndsExactly` | interceptor/intercept_handler.go:60-312 | by which steps flights end, and with which result exactly when |
| `OpeningOutcomes.UnmatchedIsResumed` | interceptor/intercept_handler.go:64-168 | in every run, an HTLC whose hash no row matches is resumed, unless the lookup failed or the node could not say whether the known next hop is connected |
| `OpeningOutcomes.EveryHtlcOnce` | interceptor/intercept_handler.go:60-63 | in every run, the HTLCs intercepted for a hash are, in order, those that got a flight's result and those aboard of the running flight; only the end of the process loses the latter |
| `OpeningOutcomes.HitsSafe` | postgresql/intercept_store.go:25-62 | after every run, the row a flight holds was found under its hash or as its probe |
| `OpeningRuns.ProbeAnswered` | interceptor/intercept_handler.go:125-146 | after every run, a probe for a registered payment without a channel finds its row, is answered with the out-of-spec code if the node is connected, and opens nothing |
| `ChannelOpening.OpenerReadItsRow` | postgresql/intercept_store.go:25-62 | whoever opens has read the row of its own hash, and the row still is as read and unfunded |
| `ChannelOpening.OpenerWritesItsRow` | postgresql/intercept_store.go:64-72 | the funding write changes that row's funding transaction and nothing else |
| `ChannelOpening.RecordedStays` | postgresql/intercept_store.go:74-103 | a registered row never changes except for one funding transaction |
| `ChannelOpening.ForwardsLeaveFee` | interceptor/intercept_handler.go:284-293 | over a whole run and whatever came in, what is sent for the evaluated HTLCs of a payment stays within the share and leaves the promised fee, of the registered amount or of what came in if that is more, exactly as `SendsLeaveFee` says |
| `ChannelOpening.EveryHtlcItsShareIff` | interceptor/intercept_handler.go:60-63 | after any run, every HTLC of a payment, also those that joined a flight, has been sent its own share if and only if no one joined a flight whose leader has another share |
| `ChannelOpening.EvenFlightsLeaveFee` | interceptor/intercept_handler.go:60-63 | then the same holds for all HTLCs of the payment together, whether they led a flight or joined one |
| `ChannelOpening.AmountsAreShares` | interceptor/intercept_handler.go:226-293 | every amount sent is the share of the evaluated part under the registered row |
| `ChannelOpening.Counted` | interceptor/intercept_handler.go:383-432 | the counters are exactly the numbers of steps that opened, and lost sight of, a channel for the payment |
| `ChannelOpening.Safety` | interceptor/intercept_handler.go:60-312 | flights, table, opens and answers stay consistent after every run |
| `InterceptHandler.Interceptor.constructor` | interceptor/intercept_handler.go:36-58 | an empty table and no flight |
| `InterceptHandler.Interceptor.RegisterPayment` | cmd/lspd/channel_opener_server.go:149-168 | registers exactly the accepted payments, and leaves a known payment alone |
| `InterceptHandler.Interceptor.Intercept` | interceptor/intercept_handler.go:60-63 | leads a flight exactly if none is running for the hash, and otherwise leaves the running one as it is |
| `InterceptHandler.Interceptor.ReadPaymentInfo` | interceptor/intercept_handler.go:64-71 | captures a row of the table that matches by hash or probing hash, nothing if none does, or ends with a failure |
| `InterceptHandler.Interceptor.CheckGuards` | interceptor/intercept_handler.go:73-224 | takes each decision exactly under its condition |
| `InterceptHandler.Interceptor.EvaluateGuards` | interceptor/intercept_handler.go:73-224 | a flight that goes on to open holds the current row of its own hash, without a channel |
| `InterceptHandler.Interceptor.CallOpenChannel` | interceptor/intercept_handler.go:383-420 | asks for a capacity other than the public amount, for the current unfunded row; after an error the channel may have been opened |
| `InterceptHandler.Interceptor.ChannelCapacity` | interceptor/intercept_handler.go:384-387 | the amount in whole satoshi plus the additional capacity, stepping over the public amount |
| `InterceptHandler.Interceptor.WriteFundingTx` | postgresql/intercept_store.go:64-72 | sets the funding transaction of the unfunded row with the request's hash and changes nothing else; after an error it is open whether it was written |
| `InterceptHandler.Interceptor.FinishFlight` | interceptor/intercept_handler.go:226-311 | sends the share of the current row over its channel, fails if that did not become active, and ends the process for a registered incoming amount of zero |
| `InterceptHandler.Interceptor.Crash` | interceptor/intercept_handler.go:226-227 | what a panic or restart leaves: the table, and channels nobody knows of |
| `RevenueMatching.CompareEqual` | cmd/lspd_revenue_cli/revenue.go:344-369 | the comparison is antisymmetric and zero exactly on equal keys |
| `RevenueMatching.CompareTransitive` | cmd/lspd_revenue_cli/revenue.go:344-369 | the comparison is transitive |
| `RevenueMatching.CompareMeans` | cmd/lspd_revenue_cli/revenue.go:344-369 | a key is behind another by its node, then its peer, compared at the first byte that differs, then its amount |
| `RevenueMatching.JoinSound` | cmd/lspd_revenue_cli/revenue.go:248-293 | on any lists the loop pairs eligible partners only and uses each record at most once |
| `RevenueMatching.JoinLeaders` | cmd/lspd_revenue_cli/revenue.go:248-342 | with sorted imports and forwards in any order, the pairs of a key are its free forwards that are not behind an earlier one and its free imports, matched in order |
| `RevenueMatching.PairsPerKey` | cmd/lspd_revenue_cli/revenue.go:248-293 | on sorted lists, per key exactly the smaller number of free entries is paired, the n-th with the n-th |
| `RevenueMatching.MaximumIff` | cmd/lspd_revenue_cli/revenue.go:248-342 | with sorted imports and forwards in any order, the pairs are a maximum one-to-one matching if and only if for every key the forwards that are not behind an earlier one use up the scarcer side |
| `RevenueMatching.JoinMaximum` | cmd/lspd_revenue_cli/revenue.go:248-293 | on sorted lists no one-to-one matching of eligible records has more pairs |
| `RevenueRecords.Consider` | cmd/lspd_revenue_cli/revenue.go:252-292 | a pair is taken exactly if it is eligible, and a free forward or import is passed over only if it is behind |
| `RevenueRecords.MatchImportedForwardsSend` | cmd/lspd_revenue_cli/revenue.go:248-293 | sets the sender's token of exactly the joined forwards, spends exactly their imports, and ends |
| `RevenueRecords.MatchImportedForwardsReceive` | cmd/lspd_revenue_cli/revenue.go:297-342 | the same for the recipient's token |
| `RevenueRecords.SendPassMaximum` | cmd/lspd_revenue_cli/revenue.go:248-293 | over the list sorted on the incoming side, the pass for sends makes a maximum matching |
| `RevenueRecords.ReceivePassMaximumIff` | cmd/lspd_revenue_cli/revenue.go:297-342 | over the list sorted on the outgoing side, exactly when the pass for receives does |
| `RevenueRecords.ReceiveMissesPair` | cmd/lspd_revenue_cli/revenue.go:78-113 | two forwards in outgoing order and an import for the second, which the pass does not pair |
| `RevenueRecords.OutgoingOrderExample` | cmd/lspd_revenue_cli/revenue.go:78-117 | such records exist |
| `InternalForwards.MatchInternalForwards` | cmd/lspd_revenue_cli/revenue.go:374-421 | one internal round is the walk over tokens, also where both lists hold the same object, and hands over what its pairs are due |
| `InternalForwards.RoundHandsOver` | cmd/lspd_revenue_cli/revenue.go:415-420 | the pairs of a round increase on both sides; each is the same hop and amount, without sender on its incoming and without recipient on its outgoing side; afterwards both carry the same token, the sender's of the outgoing forward if it had one; no other token changes |
| `InternalForwards.RoundStages` | cmd/lspd_revenue_cli/revenue.go:374-421 | a round is its pairs, one after the other, each handing on the sender's token that the outgoing forward has at that moment and changing nothing else |
| `InternalForwards.HandedStays` | cmd/lspd_revenue_cli/revenue.go:415-420 | what a pair got is not changed by later pairs |
| `InternalForwards.RoundPairsLinked` | cmd/lspd_revenue_cli/revenue.go:374-421 | for lists in any order, exactly the linked forwards are paired: free, of the same hop, with the last forwards ahead of them linked or absent |
| `InternalForwards.RoundMaximumIff` | cmd/lspd_revenue_cli/revenue.go:374-421 | no one-to-one matching has more pairs if and only if of two free forwards of the same hop one is linked |
| `InternalForwards.RoundMissesPair` | cmd/lspd_revenue_cli/revenue.go:374-421 | two forwards that mirror each other, in lists in their order, of which the round makes one pair and not the other |
| `RevenueWalks.JoinIsLinked` | cmd/lspd_revenue_cli/revenue.go:374-421 | the same of the two-index walk itself |
| `RevenueWalks.MaximumIffNoneLeft` | cmd/lspd_revenue_cli/revenue.go:374-421 | and its exact condition for a maximum matching |
| `RevenueAttribution.InternalKeeps` | cmd/lspd_revenue_cli/revenue.go:374-421 | an internal round changes no token that is set and invents none |
| `RevenueAttribution.EachRoundHandsOver` | cmd/lspd_revenue_cli/revenue.go:119-123 | each of the rounds hands over the tokens of its pairs, by what is free when it begins |
| `RevenueAttribution.PassSound` | cmd/lspd_revenue_cli/revenue.go:248-342 | an import pass fills empty tokens only, with the tokens of unspent imports of its direction |
| `RevenueAttribution.AttributeTokens` | cmd/lspd_revenue_cli/revenue.go:116-123 | a token set by either pass or any round is the same after every later one, the imported tokens are where the passes put them, every token was there or imported, no import is spent twice, and after the passes come the given number of rounds |
| `RevenueReport.CalculateRevenue` | cmd/lspd_revenue_cli/revenue.go:549-604 | on node-sorted rows, one entry for each node and every total, count and token line is that node's |
| `RevenueReport.Accumulate` | cmd/lspd_revenue_cli/revenue.go:563-600 | an entry that reports its node's rows reports them with the forward added |
| `RevenueReport.EntryStep` | cmd/lspd_revenue_cli/revenue.go:563-600 | an entry stays a report of its node's rows when one row is added |
| `RevenueReport.Sum64IsTotal` | cmd/lspd_revenue_cli/revenue.go:568-598 | accumulating in 64 bits gives the exact total modulo 2^64 |
| `RevenueReport.SidesWithinFees` | cmd/lspd_revenue_cli/revenue.go:575-600 | what senders and recipients are credited never exceeds the fees |
| `RevenueReport.LinesAddUp` | cmd/lspd_revenue_cli/revenue.go:549-604 | in a node's entry, send and receive fees of all tokens stay within the total fees and open fees add up to the channel fees |
| `RevenueReport.SideAddsUp` | cmd/lspd_revenue_cli/revenue.go:575-600 | the token lines of one side add up to that side's total |
| `RevenueReport.SortedIsGrouped` | postgresql/revenue_cli_store.go:290 | rows ordered by node stand together |
| `RevenueBalance.FeeOf` | cmd/lspd_revenue_cli/revenue.go:566-590 | what one forward contributes, in the amounts that came in and went out and those of the HTLC that opened its channel |
| `RevenueBalance.FeesBalance` | cmd/lspd_revenue_cli/revenue.go:549-604 | a node's fees, channel fees and opening fees of a token are what came in less what went out for the forwards they count, in 64 bits |
| `RevenueBalance.FeesExact` | cmd/lspd_revenue_cli/revenue.go:549-604 | exactly so if no forward sends out more than came in |
| `RevenueBalance.HalvesBalance` | cmd/lspd_revenue_cli/revenue.go:575-598 | each side and each token of it gets half of what is left of its forwards, less half a unit for each odd one at most |
| `RevenueBalance.CountsForwards` | cmd/lspd_revenue_cli/revenue.go:567-597 | the counters are the numbers of forwards |
| `ForwardHistory.ReachesAll` | cln/forwards_sync.go:54-92 | a pass reaches every complete forward if and only if none lies behind a full page of incomplete ones |
| `ForwardHistory.IncompletePageHides` | cln/forwards_sync.go:154-202 | behind 20,000 incomplete forwards a complete one is not reached, behind one less it is |
| `ForwardHistory.PageYields` | cln/forwards_sync.go:134-203 | a page yields the complete forwards up to its new cursor, and none exactly if the cursor stays |
| `ForwardHistory.PageCursor` | cln/forwards_sync.go:154-202 | the new cursor resumes right behind the last complete forward |
| `ForwardHistory.EverythingStored` | cln/forwards_sync.go:54-92 | after an error-free pass every complete forward is stored once, with its values or those that were there |
| `ForwardHistory.AllFieldsPresent` | cln/forwards_sync.go:54-92 | with all fields present the pass ends at the end of the history |
| `ForwardHistory.InsertStores` | postgresql/history_store.go:164-218 | inserting stores every item once and keeps the rows that were there |
| `ForwardHistory.UpsertAt` | postgresql/history_store.go:220-279 | updating leaves each item's row with the item's values |
| `ClnForwardSync.ForwardSync.ListForwards` | cln/forwards_sync.go:154-202 | the loop over a response returns its complete forwards, the cursor after the last one and whether the end is near |
| `ClnForwardSync.ForwardSync.Begin` | cln/forwards_sync.go:34-36 | both offsets are those in the store, or zero after an error |
| `ClnForwardSync.ForwardSync.RequestCreated` | cln/forwards_sync.go:64-74 | the listing step by created index: the forwards to insert and the cursor after them, or the loop ends |
| `ClnForwardSync.ForwardSync.InsertForwards` | postgresql/history_store.go:164-218 | the insert step; after an error it is open whether it was committed |
| `ClnForwardSync.ForwardSync.MoveCreated` | cln/forwards_sync.go:82-88 | the step that persists the created cursor and then moves it |
| `ClnForwardSync.ForwardSync.RequestUpdated` | cln/forwards_sync.go:104-114 | the listing step by updated index |
| `ClnForwardSync.ForwardSync.UpdateForwards` | postgresql/history_store.go:220-279 | the overwriting step; the invariant, that both offsets are truthful, is kept whether it was committed or not |
| `ClnForwardSync.ForwardSync.MoveUpdated` | cln/forwards_sync.go:122-128 | the step that persists the updated cursor and then moves it |
| `ClnForwardSync.PageLists` | cln/forwards_sync.go:139-149 | the page cut from a listing of the node at an offset is a response the steps allow |
| `ClnForwardSync.TruthfulOffsets` | cln/forwards_sync.go:94-132 | in every state the invariant allows, what is below either updated offset is stored with its values |
| `ClnForwardSync.ForwardSync.CreatedRound` | cln/forwards_sync.go:59-89 | made of these steps, a committed round raises the cursor and everything before it is stored, whatever call fails |
| `ClnForwardSync.ForwardSync.CreatedSynchronizeOnce` | cln/forwards_sync.go:54-92 | the loop ends; without errors it has stored the complete forwards up to where paging stops |
| `ClnForwardSync.ForwardSync.UpdatedRound` | cln/forwards_sync.go:99-129 | a round keeps what is below both offsets stored with its values, whatever fails |
| `ClnForwardSync.ForwardSync.UpdatedSynchronizeOnce` | cln/forwards_sync.go:94-132 | the loop ends with both offsets truthful, without errors where paging stops |
| `ClnForwardSync.ForwardSync.SynchronizeOnce` | cln/forwards_sync.go:49-52 | a pass by both indexes ends at rest with truthful offsets, and each loop without errors where its paging stops |
| `ClnSyncSteps.StoredBelowOffset` | cln/forwards_sync.go:34-132 | at every point of every run, with changes on the node, failures and restarts anywhere, a complete settled forward below the persisted updated offset is stored with the node's current values |
| `ClnSyncSteps.StoredBelowCreated` | cln/forwards_sync.go:34-92 | at every point of every run, restarts included, a forward below the persisted created offset is stored, if the node had it with all fields whenever a listing took the cursor past it |
| `ClnSyncSteps.Safety` | cln/forwards_sync.go:34-203 | the invariant behind it, for every run |
| `ClnSyncSteps.PageWritten` | postgresql/history_store.go:262-272 | a page listed before later changes never makes a row stale below the offsets in use |
| `LndSync.NoGap` | lnd/forwards_sync.go:50-99 | after any run no event of a second before that of a stored event is missing |
| `LndSync.Safety` | lnd/forwards_sync.go:50-99 | the invariant behind it, for every run |
| `LndSync.StopsIffUncrowded` | lnd/forwards_sync.go:50-99 | the loop ends if and only if no second from the start on holds a full page |
| `LndSync.FullSecondLoops` | lnd/forwards_sync.go:50-99 | 10,000 events in one second keep the loop going for any number of rounds, one less does not |
| `LndSync.RoundAdvances` | lnd/forwards_sync.go:50-99 | without a crowded second each full round starts later in the history |
| `LndSync.ForwardSync.FetchLndForwardOffset` | postgresql/history_store.go:305-329 | the newest stored timestamp, if there is one |
| `LndSync.ForwardSync.Begin` | lnd/forwards_sync.go:57-60 | the step that starts a pass from the newest stored timestamp, or from zero |
| `LndSync.ForwardSync.Request` | lnd/forwards_sync.go:63-88 | the listing step; the loop over the events leaves the last one's timestamp as the next start |
| `LndSync.ForwardSync.InsertForwards` | lnd/forwards_sync.go:89-97 | the storing step; after an error it is open whether it was committed, and the pass ends |
| `LndSync.PageLists` | lnd/forwards_sync.go:63-66 | the page cut from a history at a second is a response the steps allow |
| `LndSync.PageStored` | lnd/forwards_sync.go:62-98 | storing the page leaves no hole and everything before the next start's second stored, and everything if it was not full |
| `LndSync.ForwardSync.Round` | lnd/forwards_sync.go:50-99 | made of these steps, a round leaves no hole, and the next start is the second of its last event |
| `LndSync.ForwardSync.ForwardsSynchronizeOnce` | lnd/forwards_sync.go:50-99 | the loop leaves no hole whatever fails, and without errors stores everything, for every history on which the loop ends |
| `Waiters.OnlyOpenChannels` | lnd/client.go:128-135 | what a listener finds in the maps is open, inner maps are not empty, and an id stands under one key |
| `Waiters.SendsAreOpen` | lnd/client.go:128-135 | a listener that waits on a full channel under the read lock still waits on an open one |
| `Waiters.ClosedOnce` | lnd/client.go:374-400 | a channel is closed once, after its subscription is gone and when nobody is about to send on it |
| `Waiters.NextEventReaches` | lnd/client.go:374-417 | a caller that asks or blocks is subscribed, and a listener that processes an event for its key will send to it |
| `Waiters.NoEventMissed` | lnd/client.go:419-503 | a signal sent at any time between subscribing and blocking stays on its way as long as the call waits, and a call for a peer can receive it at once |
| `Waiters.WakesSoon` | lnd/client.go:451-455 | at most two steps of the forwarding goroutine bring it to a call for channels |
| `WaiterLimits.SendsIffNotJammed` | lnd/client.go:128-135 | after any run, some continuation lets a listener send on a channel if and only if the channel is not full with its call on the way out |
| `WaiterLimits.FewEventsNeverJam` | lnd/client.go:128-135 | in every run with at most ten events for its key while it is subscribed, eleven for a channel, a subscription is never jammed |
| `WaiterLimits.JamsForever` | lnd/client.go:391-401 | such a jam stays, and nobody can subscribe or unsubscribe any more |
| `WaiterLimits.JamRun` | lnd/client.go:374-417 | a run of eleven online events and one call that reaches it |
| `WaiterLimits.PanicsIffLoose` | lnd/client.go:440-455 | when a call for channels returns, a later send on its closed channel is possible if and only if a signal has not been gathered |
| `WaiterLimits.LooseRun` | lnd/client.go:440-503 | a run that returns with such a signal |
| `WaiterSignals.ChannelAccount` | lnd/client.go:128-135 | in every run, what was sent on a subscribed channel is in it, was taken by its forwarding goroutine or was received, and the goroutine passed on all it took but one it may have in hand |
| `WaiterSignals.GatheredAccount` | lnd/client.go:440-502 | in every run, what was passed on to a call is gathered or was received, one signal each time it woke up |
| `Waiters.Safety` | lnd/client.go:90-503 | the invariant behind it, for every interleaving of waiters and listeners |
| `LndClient.Client.Register` | lnd/client.go:445-479 | each key takes the next id and an inner map exists for it |
| `LndClient.Client.Subscribe` | lnd/client.go:379-389 | the locked registration is one step and leaves every key subscribed under its id |
| `LndClient.Client.BeginNotify` | lnd/client.go:187-194 | a listener ranges over every channel under the key and no other, all of them open |
| `LndClient.Client.SendSignal` | lnd/client.go:187-194 | one send of the range, on an open channel with room |
| `LndClient.Client.PullSignal` | lnd/client.go:451-455 | the forwarding goroutine takes a signal |
| `LndClient.Client.PushSignal` | lnd/client.go:451-455 | and passes it on to its call |
| `LndClient.Client.ReceiveOnline` | lnd/client.go:411-416 | a call for a peer receives from the subscribed channel and leaves |
| `LndClient.Client.ReceiveActive` | lnd/client.go:497-502 | a call for channels receives from the gathering channel and leaves |
| `LndClient.Client.Expire` | lnd/client.go:411-416 | the deadline ends the wait and the call leaves |
| `LndClient.Client.Unsubscribe` | lnd/client.go:391-401 | the locked removal is one step after which exactly the last subscription of the call is gone from the map |
| `LndClient.Removed` | lnd/client.go:391-401 | exactly the last subscription of the call leaves the map |
| `LndClient.Client.Close` | lnd/client.go:376-377 | the channel was open and is in no map |
| `LndClient.Client.Return` | lnd/client.go:440-441 | the gathering channel is closed last: no subscription of the call is in the map and all its channels are closed |
| `ShortChannelId.ParseToString` | lightning/short_channel_id.go:13-54 | every 64-bit id is read back from its text |
| `ShortChannelId.ToStringParse` | lightning/short_channel_id.go:13-54 | a text is printed back exactly if it is canonical |
| `ShortChannelId.SignIsLost` | lightning/short_channel_id.go:13-54 | "+1x2x3" reads as the id that prints "1x2x3" |
| `ShortChannelId.ParseIntExact` | lightning/short_channel_id.go:25-33 | an integer in a field is read back exactly if it fits in 64 bits and refused otherwise |
| `ShortChannelId.ReadFields` | lightning/short_channel_id.go:25-43 | which bits of three numbers, whatever they are, the id shows |
| `ShortChannelId.PackExact` | lightning/short_channel_id.go:35-41 | the packed word of any height, index and output |
| `ShortChannelId.RefusedIff` | lightning/short_channel_id.go:19-33 | a text is refused exactly for a wrong number of separators or a field that is no 64-bit integer |
| `ShortChannelId.EmptyIsZero` | lightning/short_channel_id.go:13-17 | the empty text reads as id zero, which prints as another text |
| `ShortChannelId.NegativeWraps` | lightning/short_channel_id.go:35-41 | "-1x2x3" reads as the id of the last height |
| `ShortChannelId.ToStringInjective` | lightning/short_channel_id.go:45-54 | different ids, nil included, have different texts |
| `ShortChannelId.TextIsId` | lightning/short_channel_id.go:13-54 | a text equals the printed id exactly if it is canonical and reads as the id |
| `ShortChannelId.PackAdds` | lightning/short_channel_id.go:35-41 | fields in range do not overlap in the packed word |
| `ShortChannelId.GetPeerId` | cln/cln_client.go:332-358 | the loop over texts finds the peer of the first channel that carries the id as a number |
| `Framing.ScanDoubleNewline` | cln_plugin/reader.go:92-104 | splits at the first double newline, or nowhere |
| `Framing.ChunkingIrrelevant` | cln_plugin/reader.go:92-104 | however the stream is cut into reads, the same messages are found |
| `Framing.FramesReturn` | cln_plugin/writer.go:21-37 | framed messages are read back exactly if each can be framed |
| `Framing.WrittenIsRead` | cln_plugin/reader.go:21-33 | what was framed reaches the reader in order, in reads of any size, exactly if each message can be framed |
| `Framing.ServedInOrder` | cln_plugin/reader.go:39-89 | without null requests every batch is served to its end before the next frame |
| `Framing.InOrderIffWhole` | cln_plugin/reader.go:39-89 | calls answer all frames in order if and only if no batch holds a null after its first request |
| `Framing.AnswersCounted` | cln_plugin/reader.go:43-46 | the answers of all calls and the missing ones add up to what the frames are good for: a null costs its own answer, and the rest of its batch if a batch comes next or nothing |
| `Framing.NoneMissing` | cln_plugin/reader.go:43-46 | nothing is missing exactly when no null is ever asked for |
| `Framing.NullSwallows` | cln_plugin/reader.go:39-89 | of [a, null, b] and [c] only a and c are served |
| `PluginPipe.Writer.Write` | cln_plugin/writer.go:21-37 | a success appends one whole frame, a failure a proper prefix of it or nothing |
| `PluginPipe.Reader.Scan` | cln_plugin/reader.go:48-55 | takes the first message off the stream, whatever the reads were |
| `PluginPipe.Reader.TakeFromBuffer` | cln_plugin/reader.go:81-89 | a request means that the call is served, none that the next frame is due |
| `PluginPipe.Reader.Next` | cln_plugin/reader.go:39-79 | one call answers and leaves what the model's call does |
| `NotificationCache.CleaningIsInvisible` | notifications/notification_service.go:30-65 | after every run a call is suppressed exactly if some success recorded before its lookup is less than 30 seconds old, cleaned or not |
| `NotificationCache.Safety` | notifications/notification_service.go:30-112 | the invariant behind it, for every run with a monotone clock |
| `NotificationCache.Collisions` | notifications/notification_service.go:141-143 | exactly when two payments share an identifier |
| `NotificationCache.IdentifierInjective` | notifications/notification_service.go:141-143 | public keys without the separator never collide |
| `NotificationService.Service.Lookup` | notifications/notification_service.go:59-61 | reads the entry under the payment's identifier |
| `NotificationService.Service.Decide` | notifications/notification_service.go:62-65 | suppresses exactly as the full history would |
| `NotificationService.Service.Record` | notifications/notification_service.go:106-110 | the success is recorded with the time of the write |
| `NotificationService.Service.CleanRound` | notifications/notification_service.go:38-44 | after a round no entry is left that was over 30 seconds old when it began, and none has gone that is not over 30 seconds old |

## Left out

- `matchOpenChannelHtlcs` in cmd/lspd_revenue_cli/revenue.go: it sorts a copy and walks the original list, so no matching guarantee follows; the HTLC that opened a channel is an input of the report.
- The sorts in cmd/lspd_revenue_cli/revenue.go and the SQL `ORDER BY`: their results enter as sorted lists.
- gRPC, HTTP, TLS, JSON, protobuf, e-mail and logging; the JSON decoder is a parameter of the reader.
- SQL and Postgres internals: statements are their effect on a table, and a statement that reports an error may or may not have been applied.
- Encryption, hashes and onions: the probing hash is an uninterpreted function.
- TLV rewriting in cln/cln_interceptor.go, the channel acceptor, fee estimators, configuration and command line tools.
- Delays, polling intervals, context cancellation and shutdown; a full queue or channel disables the sending step.
- The limit of about 500 MB on one message of the plugin's scanner; read errors and the end of input are one end of input.
- Calls of `WaitChannelActive` that return before they subscribe, because a channel is active already or there is none.
- `Waiters` and `LndClient` keep the peer map and the channel map of the client in one map with two kinds of keys; the code never mixes them.
- `HtlcRelay`: request ids from CLN are taken to be unique; the contents of HTLCs and results are not modelled.
- `ChannelOpening`: a database query that fails is not told apart from one that times out; the node's answers and the clock are parameters of the guards.
- `LndSync`: the node is taken to give every event its own nanosecond, and its events to appear in the order of their seconds; an event that shows up later with an earlier second would be missed, and two that share timestamp and amount would be one row.
- `Framing`: what a batch decodes to is a function of its text. The code decodes into the buffer, so a batch that follows a null is merged into the requests left there and keeps the fields that it omits.
- `ClnSyncSteps`: forwards whose node response lacks the updated index are not modelled, and indexes are unbounded.
- `NotificationCache`: the requests to the registered URLs are a success or a failure; times do not overflow.
- InterceptHandler.Interceptor.ReadPaymentInfo: does not say which row is read if one row matches by hash and another by probing hash, because the query does not either.
- OpeningFees.SendsLeaveFee: for parts below 2^63 msat, which is more than all bitcoin; the same holds for the members built on it. The fee half for a negative outgoing amount is stated where no share wraps.
- OpeningFees.AcceptedPaymentFits: for a positive registered amount, an additional capacity of at least 1 satoshi and a capacity that fits in 64 bits, because the last two come from the operator's configuration. Between the two bounds for more than the registered amount the rounding of the single parts decides.
- RevenueReport.CalculateRevenue: the total token fees of a node are the last credited half fee, because the code assigns this field instead of adding to it.
