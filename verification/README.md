# DarkStop, verified

DarkStop is a confidential stop-loss system. Orders live in an enclave, which
knows their private triggers; deposits live in a vault contract, which pays an
order out when the enclave's executor settles it. This project models the code
between the two and proves what it keeps.

- **The order store** (`OrderBook`, `OrderBookProofs`, `Store`): fixed and
  trailing policies, private watermarks, integer basis points. `Store` is a class
  over mutable heap integers, each method proved against a function of
  `OrderBook`; the class also keeps every integer it can reach to itself.
- **The settlement watcher** (`Settlement*`, `Watcher`): `Settlement` is one tick
  as a function of its RPC answers, `Watcher` the class that updates `pending`,
  `nonceOwners`, `nextNonce` and `nonceReady` in place and is proved equal to it.
  Answers are arbitrary functions from the question to an error, "not found" or a
  value, so every theorem is about every sequence of answers. A transaction is a
  value and stands for its own hash. A ghost log records reservations, releases,
  broadcasts and the life of the pending entry.
- **The vault and its token** (`Token`, `Vault*`): an external call is a tree of
  the nested calls its callee makes, to any depth, and each call ends in success
  or in a revert to the state it found. `DarkStopVault` is the contract as a class
  and is proved equal to those functions.
- **The laws in figures** (`SettlementEvents`, `SettlementLaws`, `VaultLaws`): what
  each logged event owes to the answers it rests on, and how old, how much and how
  often, stated as numbers and not through the functions that compute them.
- **The prices in between** (`PriceAgreement`): the watcher's big-integer rescale
  against the vault's checked one.
- **The edges** (`AbiCodec`, `PolicyEnvelope`, `PolicyRoundTrip`, `PolicyLaws`,
  `Instructions`, `EventFold`, `EventReplay`): the strict ABI decoder for any list of uint256 and
  bytes arguments, the padded policy and its parser, the two instruction handlers
  on top of both, and the web app's order table.
- **The composition** (`System`, `SystemProofs`, `SystemPrices`, `SystemHolds`,
  `SystemExample`, `SystemLimits`): store, watcher, chain and vault as one transition
  system. The chain follows the
  account nonce rule of section 6 of the Ethereum Yellow Paper. RPC answers about
  receipts, mined transactions and order statuses were true at some state of the
  chain; any call may also fail or find nothing. While a tick runs the chain may
  mine whatever the watcher has sent by the end of that tick and answers may be
  about any state up to then, so every interleaving of a tick's calls with the
  chain is among the runs.

The main results, in the system's terms:

1. In every reachable state of the composed system, an order marked executed in
   the enclave is EXECUTED in the vault, and a nonce recorded as consumed is used
   up on the chain - also when the executor account sends transactions of its own
   (`SystemProofs.EnclaveAgreesWithVault`).
2. If ids are placed once and every executor the vault's owner appoints settles only
   through the watcher, every EXECUTED order, whatever became of it in the enclave,
   was executed by one of the watcher's broadcasts, at a price at or below the
   trigger that broadcast disclosed, which is at or below the order's private
   effective trigger when it was sent (`SystemPrices.ExecutedAtOrBelowItsTrigger`).
   Runs that meet these assumptions exist (`SystemExample.SomeRunSettles`).
   The other half: from the moment the enclave holds an order, and while the vault
   has it OPEN, it is open in the enclave too, unless its pending broadcast reads a
   status of NONE (`SystemHolds.OpenOrdersStayWatched`).
3. For every sequence of RPC answers there is at most one pending settlement, it
   owns exactly its nonce, nonces only grow past consumed ones, broadcasts between
   an uncertain outcome and its clearing stay on one order and one nonce, and fees
   grow by more than an eighth each time.
4. Every broadcast is sent on a price at most 300 seconds old, at or below the order's
   effective trigger, and nothing is sent on any other; when every call works, one
   tick executes every order that fires; an order that is no longer open is never broadcast for again; a
   vanished transaction is released or replaced within three ticks.
5. A trailing stop's watermark is the maximum of its samples, and it fires exactly
   when 10000 * price <= maximum * (10000 - distance).
6. The vault's balance covers every OPEN order's refund at every point where
   control leaves it, however calls nest; each order is paid or refunded at most
   once; total payouts are the sum of the executed orders' payouts.
7. Encoders and decoders agree exactly: a message is accepted if and only if it is
   canonical, every policy of the browser arrives as itself, and the web app's
   table does not depend on the order or the number of deliveries.

## Where the code does not promise what one might expect

Each of these comes with a run that shows it and with its exact condition.

- A wide trailing trigger. Nothing bounds a watermark by a uint256, and the ABI
  packer keeps the low 256 bits. `SettlementLimits.WideTriggerIsLost` is a run, from
  feed values a uint256 holds, that broadcasts a trigger of 2^256 + 4 as 4 on a
  sample of 10; the vault then refuses it (`VaultRefuses`).
  `SettlementSends.CalldataIsExactIff` says exactly when the calldata carries the
  effective trigger.
- A nonce released as unconsumed. `SystemLimits.UsedNonceIsReused` is a legal run in
  which a broadcast is mined, a node still reports it as pending, the status reads
  EXECUTED, and the used nonce is handed out again.
  `SettlementProofs.UnconsumedIff` says exactly which answers release a nonce as
  unconsumed, `NextNonceAfter` exactly when it is then handed out again. Consumed
  therefore always means recorded as consumed here.
- A sample of zero. `SystemLimits.ZeroSampleIsSent` is a legal run that sends a
  replacement on a fresh sample of zero, which the vault cannot rescale;
  `PriceAgreement.SampleRescalesIff` is the exact condition.
- A late answer. `SystemLimits.LateAnswerLosesOrder` is a legal run in which a NONE
  status that was true before the order was placed deletes an order that is OPEN in
  the vault. `SettlementHolds.TickDropsIff` says exactly when a tick drops an order,
  `SystemHolds.OpenOrderLostIff` exactly when the order dropped is OPEN in the vault.

## Model

| member | source | states |
|---|---|---|
| `SystemProofs.EnclaveAgreesWithVault` | internal/extension/watcher.go:221-326 | In every reachable state of store, watcher, chain and vault, with answers that fail, are missing or were once true: locally executed implies EXECUTED in the vault, and released as consumed implies mined |
| `SystemProofs.TrueInput` | internal/extension/watcher.go:247-326 | An answer that was true of any earlier chain state is still true evidence: receipts, mined lookups and EXECUTED statuses never go stale |
| `SystemProofs.AdvanceKeeps` | contracts/DarkStopVault.sol:183-202 | Each chain step keeps the vault's books balanced, uses up the mined nonce, and a good receipt means its order EXECUTED at a price at or below the calldata's trigger, for good |
| `SystemProofs.PriceStays` | contracts/DarkStopVault.sol:195-196 | An order's execution price, once recorded, is the same in every later state |
| `SystemPrices.ExecutedAtOrBelowItsTrigger` | internal/extension/watcher.go:153-206 | With ids placed once and appointed executors that settle only through the watcher, every EXECUTED order was executed by a broadcast of the watcher, sent on a sample at or below the order's effective trigger, at a price at or below the trigger disclosed, which is at or below that effective trigger; and at or below its present trigger if the enclave still holds it |
| `SystemPrices.TickWithin` | internal/extension/watcher.go:297-317 | Every broadcast ever made was on a sample at or below the effective trigger of its moment and disclosed no more than that |
| `SystemHolds.OpenOrdersStayWatched` | internal/extension/watcher.go:277-326 | An order the enclave holds stays open in it while the vault has it OPEN, over every run in which it is cancelled only when the vault has cancelled it and its pending broadcast never reads NONE |
| `SystemHolds.OpenOrderLostIff` | internal/extension/watcher.go:318-322 | A held order that no instruction is about and that is OPEN in the vault when a step ends is lost in it if and only if its pending broadcast reads NONE |
| `SettlementHolds.TickDropsIff` | internal/extension/watcher.go:247-326 | A tick drops a stored order if and only if it is pending, without a receipt, its broadcast called mined, pending for 30 seconds or missed for the third time, and the status NONE or CANCELLED |
| `SystemLimits.LateAnswerLosesOrder` | internal/extension/watcher.go:318-322 | Some legal and orderly run, without an instruction about it, loses an order that is open on both sides and stays OPEN in the vault |
| `SystemPrices.ForeignExec` | contracts/DarkStopVault.sol:169-184 | No call tree, however nested, in which no appointed executor settles changes which orders are EXECUTED |
| `SystemPrices.TickSentBelow` | internal/extension/watcher.go:297-317 | A tick keeps every broadcast ever made for a stored order at or below that order's present trigger |
| `SystemExample.SomeRunSettles` | internal/extension/watcher.go:153-206 | Some legal and orderly run places, trips and settles an order, executed on both sides |
| `SettlementTruth.TickAgrees` | internal/extension/watcher.go:221-326 | A tick whose evidence is true marks only executed orders and records only used nonces as consumed, on every path |
| `SettlementProofs.InvAlways` | internal/extension/watcher.go:182-204 | Every run, whatever the answers, keeps the watcher idle or waiting on one pending entry with exactly its nonce |
| `SettlementProofs.PendingOwnsItsNonce` | internal/extension/watcher.go:479-535 | Between ticks at most one entry is pending and the owned nonces are exactly the pairs of pending nonce and order: nothing leaks |
| `SettlementProofs.NoncesIncrease` | internal/extension/watcher.go:479-526 | Over a whole run every nonce handed out is above every nonce released as consumed before it |
| `SettlementProofs.NextNonceAfter` | internal/extension/watcher.go:479-526 | The nonce handed out after an entry ends, exactly; it repeats if and only if it was released as unconsumed and the node's count has not passed it |
| `SettlementProofs.UnconsumedIff` | internal/extension/watcher.go:247-326 | Exactly which receipt, lookup and status answers, sample and trigger end a pending entry with its nonce released as unconsumed |
| `SystemLimits.UsedNonceIsReused` | internal/extension/watcher.go:299-325 | Some legal run hands out a nonce that the chain had used before that step |
| `SettlementProofs.ReserveIdle` | internal/extension/watcher.go:479-510 | With no nonce owned the search returns the larger of the floor, if there is one, and the node's count, or nothing at the last uint64 |
| `SettlementLaws.ReservedAtOrAboveTheCount` | internal/extension/watcher.go:479-510 | Over every run a nonce is reserved only after the node answered a count in that tick, and at or above it |
| `SettlementProofs.FinishExactly` | internal/extension/watcher.go:512-526 | Ending an entry empties both maps and leaves the floor above a consumed nonce or at an unconsumed one |
| `SettlementProofs.ReceiptEndsEntry` | internal/extension/watcher.go:221-245 | A receipt clears the entry, records the nonce as consumed and keeps the floor above it; a good one marks the order executed and changes nothing else, a failed one changes nothing |
| `SettlementProofs.MinedEndsEntry` | internal/extension/watcher.go:277-326 | A transaction called mined without a receipt ends its entry as consumed once the vault answers: 2 marks the order, 1 leaves it, 0 and 3 remove it |
| `SettlementLaws.ClosedStatusEndsEntry` | internal/extension/watcher.go:277-326 | The same for one that is not mined, with the nonce released as unconsumed |
| `SettlementLaws.OpenAndCrossedReplaces` | internal/extension/watcher.go:303-370 | While the vault has it OPEN and the sample is at or below the trigger, a replacement is sent and recorded on the same nonce, at exactly the larger of the suggested price and nine eighths plus one |
| `SettlementLaws.OpenButNotCrossed` | internal/extension/watcher.go:303-313 | Otherwise a dropped one with a fresh sample is released as unconsumed and any other waits |
| `SettlementLaws.MissesOnlyCount` | internal/extension/watcher.go:247-275 | The first and second miss only count, whatever the vault would answer |
| `SettlementLaws.YoungOnesWait` | internal/extension/watcher.go:247-275 | A broadcast in the pool for less than 30 seconds only restarts that count |
| `SettlementLaws.FailuresWait` | internal/extension/watcher.go:221-275 | A failing receipt or lookup call changes nothing |
| `SettlementLaws.UnreadStatusWaits` | internal/extension/watcher.go:277-326 | A status that cannot be read, or is none of the vault's four, decides nothing |
| `SettlementLaws.OthersNoncesAreSafe` | internal/extension/watcher.go:328-331 | Nothing is sent on a nonce that another order owns |
| `SettlementProofs.SendsStayOnTheOpenNonce` | internal/extension/watcher.go:328-370 | From an uncertain broadcast until its entry is cleared, every broadcast has the same order and nonce and outbids the last recorded price |
| `SettlementProofs.FeesGrow` | internal/extension/watcher.go:341-367 | After k replacements 8^k * g_k >= 9^k * g_0 and g_k >= g_0 + k, whatever prices are suggested |
| `SettlementProofs.BumpOutbids` | internal/extension/watcher.go:341-346 | One fee bump satisfies 8 * g' > 9 * g and g' > g |
| `SettlementEvents.TickLawful` | internal/extension/watcher.go:153-370 | Every event a tick logs follows from its answers: reserved nonces are at or above an answered count; first broadcasts carry an attempt's gas price and gas, replacements exactly Max(suggested, g * 9 / 8 + 1) on the pending nonce; entries are first seen when sent, with no misses |
| `SettlementEvents.RunLawful` | internal/extension/watcher.go:153-370 | Over every run each event comes from one of its ticks, under that same law |
| `SettlementLaws.ThreeAttempts` | internal/extension/watcher.go:542-564 | A second and a third attempt follow a failed one, then what is held is released |
| `SettlementLaws.AttemptInFull` | internal/extension/watcher.go:580-636 | What one attempt logs, leaves and reports, for every combination of failing calls |
| `SettlementLaws.EveryFiringOrderSettles` | internal/extension/watcher.go:153-206 | When every call works and no broadcast without a receipt is pending, one tick executes every open order whose effective trigger is at or above the sample |
| `SettlementSends.TickSends` | internal/extension/watcher.go:153-206 | With ids placed once, everything a tick sends is sent on its fresh sample, at or below the order's effective trigger at that moment, which it discloses; and the tick leaves the known orders as sampled, or executed |
| `SettlementLaws.FreshIff` | internal/extension/watcher.go:153-175 | A sample is fresh exactly when it was read, is not from the future and is at most 300 seconds old, for every uint64 timestamp; it is then the feed's price at six decimals |
| `SettlementLaws.SendsAreFresh` | internal/extension/watcher.go:153-206 | Every broadcast of a tick rests on a price at most 300 seconds old, and on that price |
| `SettlementLaws.UnusablePriceChangesNothing` | internal/extension/watcher.go:153-175 | Without such a price a tick sends nothing and leaves the last sample, watermarks and triggers as they were |
| `SettlementLaws.UsablePriceIsTaken` | internal/extension/watcher.go:176-181 | With one, the tick records it at the feed's time and takes it into every open trailing watermark |
| `SettlementSends.NoSampleNoSend` | internal/extension/watcher.go:153-175 | A tick without a fresh sample sends nothing, replayed ids or not |
| `SettlementLaws.FixedBroadcasts` | internal/extension/store.go:185-204 | Over every run each broadcast for an order fixed at t discloses exactly t, on a sample at or below t |
| `SettlementSends.ClosedForGood` | internal/extension/watcher.go:182-204 | Once an order that was broadcast for is no longer open in the enclave, no later tick sends anything for it |
| `SettlementSends.CalldataIsExactIff` | internal/extension/watcher.go:467-473 | The calldata carries the effective trigger exactly when it fits a uint256, as every fixed one does; the sample is then at or below the calldata's trigger |
| `SettlementLimits.WideTriggerIsLost` | internal/extension/watcher.go:467-473 | Feed values a uint256 holds lead the watcher to broadcast a trigger of 2^256 + 4, packed as 4, on a sample of 10 |
| `SettlementLimits.VaultRefuses` | contracts/DarkStopVault.sol:192-193 | Against that feed the vault refuses that settlement in every state |
| `SettlementProgress.VanishedTransactionUnblocks` | internal/extension/watcher.go:247-370 | A hash unknown on three ticks with fresh samples and working RPC is by then released or replaced on the same nonce, whatever instructions arrive in between |
| `SettlementWatcher.Watcher.ReserveNonce` | internal/extension/watcher.go:479-510 | A nonce the order owns already, or the specification's first free one with the new floor; the loops terminate and the floor stays a uint64 |
| `SettlementWatcher.Watcher.ReleaseNonce` | internal/extension/watcher.go:516-526 | Only the owner releases; unconsumed lowers the floor to the nonce |
| `SettlementWatcher.Watcher.ReleaseOrderNonce` | internal/extension/watcher.go:528-535 | One nonce the order owns is released, or nothing changes |
| `SettlementWatcher.Watcher.SettleOnce` | internal/extension/watcher.go:580-636 | One attempt for every combination of failing calls: what is reserved, released, sent and learned |
| `SettlementWatcher.Watcher.Send` | internal/extension/watcher.go:610-636 | A send error or a missing receipt leaves the nonce reserved; a receipt releases it as consumed |
| `SettlementWatcher.Watcher.SettleWithRetry` | internal/extension/watcher.go:542-564 | Up to three attempts; an uncertain one opens the pending entry, three failures release the nonce as unconsumed |
| `SettlementWatcher.Watcher.ReplacePending` | internal/extension/watcher.go:328-370 | The replacement on the entry's own nonce, recorded only when its send succeeds |
| `SettlementWatcher.Watcher.ReconcileAgainstVault` | internal/extension/watcher.go:277-326 | What each vault status does to the entry, its nonce and its order |
| `SettlementWatcher.Watcher.ReconcileUnconfirmed` | internal/extension/watcher.go:247-275 | What each lookup answer does, with the miss counter and the replacement age |
| `SettlementWatcher.Watcher.ReconcilePending` | internal/extension/watcher.go:221-245 | One receipt lookup for each entry pending at the start |
| `SettlementWatcher.Watcher.SettleAll` | internal/extension/watcher.go:182-204 | One executor transaction at a time, stopping at the first pending one |
| `SettlementWatcher.Watcher.Tick` | internal/extension/watcher.go:153-206 | A whole tick equals its specification and keeps the invariant |
| `OrderBookProofs.ShapeAlways` | internal/extension/store.go:51-103 | Every run of store calls keeps every order exactly one of fixed or trailing |
| `OrderBookProofs.EveryOpenOrderHasATrigger` | internal/extension/store.go:185-204 | From the empty store on, every open order has an effective trigger and exactly one policy |
| `OrderBookProofs.ReportedIff` | internal/extension/store.go:153-180 | The report is sorted by id and holds exactly the open orders whose raised trigger is at or above the sample |
| `OrderBookProofs.ReportedCopy` | internal/extension/store.go:164-178 | A reported order is the stored one with its effective trigger filled in |
| `OrderBookProofs.ListingsAre` | internal/extension/store.go:106-216 | The lists of open orders and of all orders are sorted by id and hold exactly those, as stored |
| `OrderBookProofs.FixedFires` | internal/extension/store.go:164-173 | An open fixed order stands for exactly its stored price and fires exactly at or below it |
| `OrderBookProofs.FixedRefinement` | internal/extension/store.go:51-180 | An order put with price t and still open after any calls is unchanged, fires exactly on samples at or below t, and its report carries t |
| `OrderBookProofs.LatestIsLast` | internal/extension/store.go:121-128 | The latest price is the last valid sample, whatever came before |
| `OrderBookProofs.ActivationWindow` | internal/extension/store.go:54-70 | A trailing order is taken exactly within ten seconds of the last valid sample, which becomes its watermark, and never before the first |
| `OrderBookProofs.WatermarkIsPeak` | internal/extension/store.go:153-168 | An open trailing order's watermark is the maximum of where it started and every later sample |
| `OrderBookProofs.TrailingRefinement` | internal/extension/store.go:153-180 | From activation on, the order fires exactly when 10000 * price <= maximum * (10000 - distance): floor division loses nothing |
| `OrderBookProofs.NewHighNeverFires` | internal/extension/store.go:153-180 | A sample above the watermark moves the trigger below itself and is not reported |
| `OrderBookProofs.TriggerNeverDecreases` | internal/extension/store.go:185-204 | While an order stays open its effective trigger only rises, and a fixed order does not change |
| `EnclaveStore.Store.Put` | internal/extension/store.go:51-70 | Which check an order meets first; accepted orders are stored as copies, trailing ones seeded with the last sample |
| `EnclaveStore.Store.Get` | internal/extension/store.go:73-78 | The stored order, in integers of its own |
| `EnclaveStore.Store.Delete` | internal/extension/store.go:81-89 | Exactly that order is gone, and whether it was there |
| `EnclaveStore.Store.MarkExecuted` | internal/extension/store.go:93-103 | Only an open order is marked, and nothing else changes |
| `EnclaveStore.Store.OpenOrders` | internal/extension/store.go:106-117 | The open orders by id, as copies |
| `EnclaveStore.Store.ObservePrice` | internal/extension/store.go:121-128 | A valid sample is copied in; any other changes nothing |
| `EnclaveStore.Store.TriggeredOrders` | internal/extension/store.go:153-180 | Watermarks are raised and the firing orders returned, sorted, in integers the store does not own |
| `EnclaveStore.Store.EffectiveTrigger` | internal/extension/store.go:185-204 | The trigger of an open order, in a new integer |
| `EnclaveStore.Store.Snapshot` | internal/extension/store.go:207-216 | Every order by id, as copies |
| `EnclaveStore.CloneOrder` | internal/extension/store.go:218-226 | The same order in new integers |
| `EnclaveStore.ForeignWritesAreInvisible` | internal/extension/store.go:51-226 | Whatever is written to integers the store does not own, passed in or handed out, the store stands for the same book |
| `PriceAgreement.SampleAtSixDecimals` | internal/extension/watcher.go:456-464 | The watcher's sample is value * 10^(6-d), or the q with q * 10^(d-6) <= value < (q+1) * 10^(d-6) |
| `PriceAgreement.VaultPriceAtSixDecimals` | contracts/DarkStopVault.sol:226-232 | The vault's price is that same number, and exactly when it reverts |
| `PriceAgreement.SettlementIsFreshAndLow` | contracts/DarkStopVault.sol:183-193 | No settlement succeeds on a price older than 300 seconds, from the future, or above its trigger |
| `PriceAgreement.RescaleAgrees` | contracts/DarkStopVault.sol:226-232 | For every int8 decimals, a vault rescale that does not revert is the watcher's |
| `PriceAgreement.PowerFitsIff` | contracts/DarkStopVault.sol:226-232 | A checked power of ten succeeds exactly up to 10^77 |
| `PriceAgreement.SampleRescalesIff` | internal/extension/watcher.go:456-464 | The vault reproduces a sample at or below a uint256 trigger exactly when it is positive or its scale fits |
| `SystemLimits.ZeroSample` | internal/extension/watcher.go:456-464 | A feed value of 1 with 84 decimals: the watcher's fresh sample is zero, the vault's rescale reverts |
| `SystemLimits.ZeroSampleIsSent` | internal/extension/watcher.go:297-317 | Some legal run sends a replacement on that sample, and the vault refuses it against that feed |
| `PriceAgreement.SettleSucceedsIff` | contracts/DarkStopVault.sol:183-202 | Every condition under which a settlement succeeds, and no other |
| `PriceAgreement.SentSettlePassesTheGuards` | contracts/DarkStopVault.sol:183-193 | A settlement sent on a positive sample, mined within 300 seconds of an unchanged feed, can fail only for executor, status, overflow of the product, or the payout pool |
| `VaultProofs.Conservation` | contracts/DarkStopVault.sol:132-253 | At every call-out point of every nested call - registry reads and sends, price feed, payout transfer, refund - the balance is the deposits of OPEN and EXECUTED orders plus fees and refunds in flight |
| `VaultProofs.RefundAlwaysCovered` | contracts/DarkStopVault.sol:210-223 | Whenever control leaves the vault, any OPEN order's deposit is covered on top of what is in flight |
| `VaultProofs.CancelSucceedsIff` | contracts/DarkStopVault.sol:210-223 | A cancellation never fails for lack of funds, and exactly when it fails |
| `VaultProofs.RunsStaySolvent` | contracts/DarkStopVault.sol:152-253 | Conservation over every run from the empty vault |
| `VaultLedger.OrdersOnlyAdvance` | contracts/DarkStopVault.sol:152-223 | NONE to OPEN to one of EXECUTED or CANCELLED, and there an order stays, with its owner and deposit |
| `VaultLedger.PaidOrRefundedOnce` | contracts/DarkStopVault.sol:183-223 | An executed order is paid exactly once, a cancelled one refunded exactly once, and never both |
| `VaultLedger.TotalIsTheSumOfPayouts` | contracts/DarkStopVault.sol:195-201 | All USDT0 paid is the sum of floor(deposit * price / 10^18) over executed orders |
| `VaultLedger.EveryPaymentIsBounded` | contracts/DarkStopVault.sol:192-201 | Each payment goes to the owner, is the order's payout and at most the payout at the disclosed trigger |
| `VaultLaws.PayoutIs` | contracts/DarkStopVault.sol:198-200 | The payout is the amount with 10^18 * amount <= deposit * price < 10^18 * (amount + 1) |
| `VaultLaws.PaymentsInFigures` | contracts/DarkStopVault.sol:192-201 | Over every run each payment is that amount at the price its order was executed at, and 10^18 * amount <= deposit * trigger |
| `VaultLaws.SettlementPays` | contracts/DarkStopVault.sol:183-202 | A settlement that succeeds marks its order EXECUTED, moves exactly that amount from the vault to the order's owner, and changes nothing else |
| `VaultLaws.PlaceSucceedsIff` | contracts/DarkStopVault.sol:152-165 | Exactly when an order is placed |
| `VaultLaws.PlacedAs` | contracts/DarkStopVault.sol:156-164 | Under the next id, for the caller, with its value less the fee, whatever the registry's callee does |
| `VaultLaws.PlacedOnly` | contracts/DarkStopVault.sol:152-165 | And with no other change if that callee calls nothing |
| `VaultLaws.CancelledOnly` | contracts/DarkStopVault.sol:210-223 | A cancellation, if its callees call nothing, changes the status and refunds the deposit and does nothing else |
| `VaultLaws.OnlyOwnersChange` | contracts/DarkStopVault.sol:132-172 | However deep calls nest, the executor changes only by the owner's call, the supply only by the token owner's mint, and an extension id that is set never |
| `VaultLaws.ExecutorIs` | contracts/DarkStopVault.sol:169-172 | The appointment succeeds exactly for the owner, and changes nothing else |
| `VaultLaws.ExtensionIdIs` | contracts/DarkStopVault.sol:132-143 | The extension id is set once, to the vault's first place among the registered senders |
| `VaultLaws.FailureChangesNothing` | contracts/DarkStopVault.sol:152-223 | A call that fails leaves the state it found |
| `VaultContract.DarkStopVault.PlaceOrder` | contracts/DarkStopVault.sol:152-165 | The contract's method equals the specification, its revert included |
| `VaultContract.DarkStopVault.Settle` | contracts/DarkStopVault.sol:183-202 | The contract's method equals the specification, its revert included |
| `VaultContract.DarkStopVault.Cancel` | contracts/DarkStopVault.sol:210-223 | The contract's method equals the specification, its revert included |
| `VaultContract.DarkStopVault.SendInstruction` | contracts/DarkStopVault.sol:236-253 | A missing extension id or machine reverts; otherwise the fee leaves and the callee acts |
| `VaultContract.DarkStopVault.SetExtensionId` | contracts/DarkStopVault.sol:132-143 | The scan of the registered senders finds the vault's first entry, once, or reverts |
| `VaultContract.DarkStopVault.Execute` | contracts/DarkStopVault.sol:132-223 | Every external call of the vault equals the specification |
| `PayoutToken.MoveKeepsSupply` | contracts/MockUSDT0.sol:52-58 | A transfer succeeds exactly when the balance covers it and keeps supply equal to the sum of balances, to oneself too |
| `PayoutToken.MoveExactly` | contracts/MockUSDT0.sol:52-58 | A transfer moves exactly its amount and touches nobody else |
| `PayoutToken.CallKeepsBalanced` | contracts/MockUSDT0.sol:26-58 | Every token call keeps supply equal to the sum of balances |
| `PayoutToken.SupplyChange` | contracts/MockUSDT0.sol:26-31 | Only the owner's mint changes the supply, by its amount |
| `PayoutToken.CallExactly` | contracts/MockUSDT0.sol:26-58 | Exactly when each token call succeeds, and what it does to every balance |
| `PayoutToken.OnlyOwnersSpend` | contracts/MockUSDT0.sol:33-50 | A balance falls only by its owner's transfer or within an allowance, which falls with it unless unlimited |
| `PayoutToken.MockUsdt0.Mint` | contracts/MockUSDT0.sol:26-31 | The new ledger, exactly, and still balanced |
| `PayoutToken.MockUsdt0.Transfer` | contracts/MockUSDT0.sol:33-35 | The new ledger, exactly, and still balanced |
| `PayoutToken.MockUsdt0.TransferFrom` | contracts/MockUSDT0.sol:37-44 | The new ledger and allowance, exactly, and still balanced |
| `AbiCodec.UnpackStrict` | pkg/types/types.go:92-110 | The loop returns the strict decoder's verdict, with the first differing byte |
| `AbiCodec.FirstDifferenceIs` | pkg/types/types.go:104-108 | The reported byte is the first that differs, and none is reported exactly when all agree |
| `AbiCodec.StrictIff` | pkg/types/types.go:92-110 | For any list of uint256 and bytes arguments, a byte string is accepted as some values if and only if it is their canonical encoding |
| `AbiCodec.PackInjective` | pkg/types/types.go:88-110 | No two lists of values of the same types have one encoding |
| `AbiCodec.AcceptedIsWholeWords` | pkg/types/types.go:88-110 | Every accepted message is a whole number of 32-byte words |
| `AbiCodec.StrictRefuses` | pkg/types/types.go:92-110 | A refusal is the unpacker's own, or names both lengths, or the first byte that differs |
| `AbiCodec.PlaceMessageBytes` | pkg/types/types.go:12-20 | The message byte by byte: big-endian id, offset 64, length, ciphertext, zeros to the next whole word |
| `AbiCodec.PlaceDecodesIff` | pkg/types/types.go:55-72 | A placement decodes to (id, ciphertext) exactly when it is the vault's own message for that pair |
| `AbiCodec.CancelDecodesIff` | pkg/types/types.go:75-87 | A cancellation decodes to an id exactly when it is that id's word |
| `AbiCodec.TypesAreAsAsked` | pkg/types/types.go:61-68 | The type assertions after a strict decode cannot fail |
| `AbiCodec.DecodePlaceOrder` | pkg/types/types.go:55-72 | The method's result is the specified decoding |
| `AbiCodec.DecodeCancelOrder` | pkg/types/types.go:75-87 | The method's result is the specified decoding |
| `PolicyEnvelope.ValidateOrderJSONKeys` | internal/extension/crypto.go:137-176 | True exactly for one flat object, nothing after it, with known keys and none twice |
| `PolicyEnvelope.ParseOrderPlaintext` | internal/extension/crypto.go:89-132 | The policy of a plaintext of 1 to 1024 bytes, legacy fixed ones included, or a refusal |
| `PolicyEnvelope.EncodePaddedPolicy` | frontend/lib/ecies.ts:31-39 | The buffer holds the JSON text and spaces up to 128 bytes, or the text is too long |
| `PolicyRoundTrip.ObjectRoundTrip` | internal/extension/crypto.go:137-187 | Any flat object, stringified and padded, is read back member by member |
| `PolicyRoundTrip.EscapeReadsBack` | internal/extension/crypto.go:137-176 | Every character written as its \u escape, a surrogate pair included, is read as itself, so an escaped key is the key it spells |
| `PolicyRoundTrip.Uint256Digits` | frontend/lib/ecies.ts:88-93 | A price string that passes the guards has at most 78 digits |
| `PolicyRoundTrip.FixedRoundTrip` | frontend/lib/ecies.ts:84-100 | Every accepted price string fits the envelope and is parsed back to exactly its value |
| `PolicyRoundTrip.EveryTriggerHasAPlaintext` | frontend/lib/ecies.ts:84-100 | Every trigger in 1..2^256-1 has an accepted price string that arrives as itself |
| `PolicyRoundTrip.TrailingRoundTrip` | frontend/lib/ecies.ts:102-115 | Every distance in 25..5000 fits the same envelope and arrives as itself |
| `PolicyLaws.FixedTakenIff` | frontend/lib/ecies.ts:88-93 | The browser encrypts exactly the decimal numerals of 1..2^256-1 |
| `PolicyLaws.TrailingTakenIff` | frontend/lib/ecies.ts:102-108 | And exactly the distances 25..5000 |
| `PolicyLaws.FixedText` | frontend/lib/ecies.ts:98-98 | The text of a fixed policy, letter for letter |
| `PolicyLaws.TrailingText` | frontend/lib/ecies.ts:113-113 | The text of a trailing policy, letter for letter |
| `PolicyLaws.LegacyRoundTrip` | internal/extension/crypto.go:103-107 | A plaintext with a price and no strategy is that fixed policy |
| `PolicyLaws.ParsedIff` | internal/extension/crypto.go:89-132 | A plaintext is parsed as a policy if and only if it has 1 to 1024 bytes and is one object of well-typed members with distinct known keys which stand for it |
| `PolicyLaws.NumbersAre` | internal/extension/crypto.go:137-176 | A number is all the digits there are, without a leading zero |
| `PolicyLaws.NothingFollows` | internal/extension/crypto.go:178-187 | An object may be followed by white space only |
| `PolicyLaws.CommasAreStrict` | internal/extension/crypto.go:137-176 | Members are separated by exactly one comma each |
| `PolicyLaws.SkipsExactly` | internal/extension/crypto.go:137-176 | White space is exactly tab, line feed, carriage return and space |
| `PolicyLaws.ShortEscapes` | internal/extension/crypto.go:137-176 | The eight short escapes, by code point |
| `PolicyRoundTrip.ParsedPolicyIsStorable` | internal/extension/store.go:51-64 | A parsed policy is refused by the store only for a taken id, id 0 or a missing recent sample |
| `Instructions.ProcessPlaceOrder` | internal/extension/extension.go:138-172 | From message to store: the new book, exactly, and accepted exactly when decoded, decrypted, parsed and put |
| `Instructions.ProcessCancelOrder` | internal/extension/extension.go:176-198 | From message to store: the new book, exactly, and whether the order was there |
| `Instructions.MessagesAreInstructions` | internal/extension/extension.go:138-198 | Any message changes the store as by one instruction of the settlement model or not at all |
| `Instructions.FixedStopArrives` | internal/extension/extension.go:138-172 | A fixed stop placed through browser and vault is stored with exactly its price, unless its id is taken or no uint64 |
| `Instructions.TrailingStopArrives` | internal/extension/extension.go:138-172 | A trailing stop is stored with exactly its distance, seeded with the last sample, if that is recent |
| `Instructions.CancellationArrives` | internal/extension/extension.go:176-207 | The vault's cancellation drops exactly that order |
| `EventFold.Apply` | frontend/components/useOrders.ts:36-65 | The new map's rows are the fold of the old ones; the rows of the old map are amended in place and shared |
| `EventFold.Row.Amend` | frontend/components/useOrders.ts:44-60 | One log's effect on its row |
| `EventFold.FoldReflects` | frontend/components/useOrders.ts:36-65 | The table of consistent logs says exactly what the logs say |
| `EventFold.DeliveryOrderIsIrrelevant` | frontend/components/useOrders.ts:36-65 | Consistent logs give one table, in any order and with any duplication |
| `EventFold.SecondRunAgrees` | frontend/components/useOrders.ts:37-39 | Running the updater again on the table it has amended gives the same table |
| `EventReplay.ReplayAgrees` | frontend/components/useOrders.ts:36-65 | Any complete delivery of a vault run's logs folds to rows for exactly the ids 1..nextOrderId with the vault's owner, status and price |
| `EventReplay.DeliveredConsistent` | contracts/DarkStopVault.sol:156-217 | The vault's logs never contradict each other: one event of each kind for an order, and never both executed and cancelled |

## Left out

- SystemProofs.EnclaveAgreesWithVault: chain reorganisations are not modelled, and
  prices, gas prices and account nonces may be answered untruthfully.
- SystemPrices.ExecutedAtOrBelowItsTrigger: assumes that no appointed executor settles
  except through the watcher, because the vault trusts whichever executor it has with
  the trigger.
- SystemHolds.OpenOrdersStayWatched: assumes that a CANCEL instruction about the order
  comes only from a vault that has cancelled it, and that no NONE answer is read for
  its pending broadcast; `OpenOrderLostIff` shows that the second is needed.
- SettlementSends.TickSends: says the calldata's trigger is the low 256 bits of the
  effective trigger, because that is what the ABI packer writes; `CalldataIsExactIff`
  is the exact condition for the two to agree.
- SettlementWatcher.Watcher.Tick: each call on the store is one atomic step and
  instructions are handled between those calls; locks, timers, backoff sleeps,
  shutdown and the log lines (with the count of open orders they print) are left out.
- SettlementWatcher.Watcher.ReplacePending: a replacement whose send returns an error
  is not recorded although it may have been accepted, as in the code; the log has it
  as sent.
- EnclaveStore.Store.TriggeredOrders: the integers of the report are stated to be
  disjoint from the store's, not to be newly allocated.
- EnclaveStore.Store.Put: the time is a parameter, in nanoseconds; monotonic clock
  readings are left out.
- AbiCodec.StrictIff: byte strings are shorter than 2^63, as any Go slice is; argument
  types other than uint256 and bytes are left out.
- PolicyEnvelope.ValidateOrderJSONKeys: says for which plaintexts key check and decoding
  can succeed, not which error comes first; nested values and numbers that are not plain
  digits are refused at once, where Go refuses them when it decodes the field; bytes
  outside ASCII stand for themselves, since no accepted key or value has any.
- PolicyEnvelope.ParseOrderPlaintext: says whether and with what policy a plaintext is
  accepted, not the text of the refusal.
- EventFold.Apply: ids are the map's keys, without their decimal text; fetching the
  history, its fallback to a recent window, and the subscription are left out.
- EventReplay.ReplayAgrees: needs every event of the vault to have been delivered at
  least once; a recent window alone gives rows without their placement.
- VaultProofs.Conservation: forced native-token transfers are left out.
- Instructions.ProcessPlaceOrder: decryption is a function of the ciphertext; ECIES,
  key derivation, signing and hashing are left out, and so is the shape of the
  browser's public key.
- HTTP servers, RPC transport, ABI packing of the watcher's read calls, configuration,
  deployment and registration tools, wallet and page components are left out: none
  holds state that these properties depend on.
- Liveness under permanent RPC failure is left out; the code does not promise it.
