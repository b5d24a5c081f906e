# Verification of the Fermi client SDK's hard core

A Dafny 4.11 model of the parts of the SDK whose correctness does not show in any one function body. `dafny verify
dfyconfig.toml` checks all of it.

| file | models | main results |
|---|---|---|
| `FlpMath.dfy`, `FlpVault.dfy` | share pricing, fees, payouts; whole runs of a vault | the share price never falls, a round trip never profits, a funded batch covers every split into claims, recovery conserves exactly |
| `SmokeReceipt.dfy` | the smoke runner's receipt: guard, evidence, reconciliation, one submission, summary | written before sent; a second submission is refused; completion rests on evidence |
| `ReceiptFile.dfy` | replacing the receipt file | old or new, never partial, wherever it is interrupted |
| `SmokeDriver.dfy`, `SmokeRuns.dfy`, `SmokeRefinement.dfy` | the runner as a protocol: processes, a lock file, crashes, power loss, an RPC that answers anything | no action is ever sent twice; every send is journalled with its signature; exactly when a send is still possible; a run of the driver from the guard on is a submission, and every submission has a run |
| `SseParser.dfy`, `HandOff.dfy`, `StreamPump.dfy` | the incremental event-stream parser; the one-slot async hand-off; the stream that joins them | chunking is irrelevant; printed frames parse back; the consumer gets the frames of the text, none lost or repeated |
| `WireCodec.dfy`, `SignedMessages.dfy`, `RuntimeFlags.dfy` | payload encoders, signed preimages, account flags and their byte form | readers recover every field and accept nothing else; equal preimages mean equal messages |
| `TriggerLegs.dfy` | stop-loss and take-profit legs: builder and submission check | what is built passes; what passes is bounded; one signed hash fits one payload and account list, unless theirs collide; a pair brackets the oracle |
| `Redaction.dfy`, `LegSanitizer.dfy`, `LegBridge.dfy` | what may leave the keeper about a leg | non-interference, idempotence, fixed points; what whitelisting before strict validation changes |
| `Base58.dfy`, `EpochWalk.dfy`, `EventQueues.dfy` | base58, the deferred-queue walk, the event-queue cache | mutual inverses; every graph has exactly one outcome; cached calls are scans |
| `Results.dfy`, `Limits.dfy` | optional and failing results; shared bounds | |

Code that updates state in place is a class or a method with loops here (`Journal`, `Storage`, `Parser`, `Channel`,
`FlpClient`, `Encode`, `Decode`, `Walk`, `StripForbiddenKeys` and so on), proved equal to a function, and the promises
are proved about that function. The smoke runner's process loop is a state machine: one `Step` datatype holds every
choice of the scheduler, the RPC, the disk and the operator, and the theorems quantify over all lists of steps.
Thrown exceptions are `Result` errors. JSON parsing, SHA-256 and the chain's answers are parameters.

Where the code and what one would like to say of it part ways, the model follows the code:

* A durable record without a signature does not by itself rule out a send: the process that wrote it goes on to sign
  and send (`UnsignedRecordCanStillBeSent`); and if it dies with the signature in the file but not yet durable, a
  restart may find the signature confirmed and send the next action (`SignedFileReopens`).
  `UnsignedRecordStopsSending` says exactly when a send is still possible, and `SendPossibleIff` says so of every
  reachable state.
* Reconciliation can move a confirmed record back to unknown (`ConfirmedCanBecomeUnknown`), so no result relies on
  statuses being monotone.
* The virtual offsets let a withdrawal of the whole supply exceed the NAV (`VirtualOffsetCanOverpay`);
  `VirtualOffsetPayoutWithinNav` says exactly when it does not.
* The hand-off loses a call when two are outstanding (`OverlapLosesTheFirstCall`); `NoAnswerLostIffOneAtATime` counts
  what is lost.
* The submission check reads the flag bytes of a payload but not its header (`HeaderIsNotChecked`), so
  `PassingLegIsBoundedOrder` says which passing payloads are orders.
* The lenient whitelist is not the identity on every leg the strict sanitizer accepts: a leg may have a key outside the
  view (`ExtraKeyIsDropped`). `AcceptedLegFixedIff` says when it is, and `WhitelistFirstDiffersIff` when whitelisting
  first changes what the sanitizer returns.
* The event-stream parser dispatches frames without data, forgets `id` between frames and ends lines at LF only,
  unlike section 9.2.6 of the WHATWG HTML Living Standard. The comment above it says it handles no multi-line `data:`;
  the code joins such lines, and so does the model.

## Model

| member | source | states |
|---|---|---|
| `FlpMath.ApplyRatioExact` | src/flp/math.ts:41-47 | a ratio is applied exactly on the in-range inputs whose product fits u128 and whose quotient fits u64, and the result is the floor of the exact quotient |
| `FlpMath.QuoteDepositExact` | src/flp/math.ts:54-59 | exactly which deposits are quoted; fee is the least integer covering the rate, amount = fee + net, shares are the floor of net at the virtual-offset price |
| `FlpMath.ClaimPayoutExact` | src/flp/math.ts:61-65 | exactly which claims are paid; gross is the floor at the ratio, fee is rounded up, net is the floor of the untaxed gross |
| `FlpMath.BatchPayoutExact` | src/flp/v4.ts:56-64 | a batch is funded on exactly the inputs on which a claim of the whole of it would be paid, with the fee rounded down and so net rounded up |
| `FlpVault.DepositKeepsPrice` | src/flp/math.ts:26-30 | a deposit priced at or above the true NAV keeps the vault solvent and does not lower the share price |
| `FlpVault.WithdrawalKeepsPrice` | src/flp/math.ts:31-34 | a withdrawal priced at or below the true NAV, of shares that exist, keeps the vault solvent and does not lower the share price |
| `FlpVault.PriceNeverFalls` | src/flp/math.ts:26-65 | over every run of such steps (a deposit adds at least its net to NAV, a withdrawal takes at most its gross), failing ones included, assets plus offset stay positive and the price never falls |
| `FlpVault.PublishedPriceNeverFalls` | src/flp/math.ts:48-52 | the fixed-point published price never falls along a run |
| `FlpVault.NavWithinCash` | src/flp/math.ts:54-65 | if NAV moves by participants' quote alone, it grows over a run by no more than was paid in net of what was paid out |
| `FlpVault.RoundTripNeverProfits` | src/flp/math.ts:26-65 | a run that returns the supply to its start leaves NAV no lower, and if NAV moved by participants' quote alone they took out no more of it than they paid in |
| `FlpVault.TicketRounding` | src/flp/math.ts:61-65 | over any list of claims, rounding loses less than a unit per ticket in the gross sum and less than a unit per ticket in the net sum |
| `FlpVault.SmallerClaimAccepted` | src/flp/math.ts:41-47 | a claim of part of a payable amount is payable |
| `FlpVault.BatchCoversItsClaims` | src/flp/v4.ts:55-64 | however a funded batch is split into k >= 1 tickets, no claim throws, the nets never sum to more than the batch net, and less than 2k units are left |
| `FlpVault.RedeemExact` | src/flp/math.ts:36-47 | a recovery redemption of shares that exist is paid if and only if shares, supply and NAV allow a ratio; it conserves assets, does not lower assets per share, and redeeming all shares pays all assets |
| `FlpVault.RecoveryConserves` | src/flp/math.ts:36-40 | redeeming in any order and any split, repricing each time, throws if and only if a ticket comes up after the last share, conserves every unit and pays exactly the starting NAV once the supply is gone |
| `FlpVault.VirtualOffsetPayoutWithinNav` | src/flp/math.ts:31-34 | redeeming the whole supply at the virtual-offset price stays within a positive NAV if and only if (S - N) * offset < S + offset; always when S <= N; and pays nothing at a NAV of zero or below |
| `FlpVault.VirtualOffsetCanOverpay` | src/flp/math.ts:31-34 | three shares against one unit of NAV redeem for two |
| `SmokeReceipt.Journal.Guard` | src/flp/mainnetSmoke.ts:77-80 | an action already recorded is refused, and any action is refused while a record is not settled |
| `SmokeReceipt.Journal.Reconcile` | src/flp/mainnetSmoke.ts:198-215 | the loop leaves the records as the reference says, including how far it got when a read throws |
| `SmokeReceipt.ReconcileKeepsSubmissions` | src/flp/mainnetSmoke.ts:198-215 | reconciling keeps every action and signature and every unsigned record; a completed pass settles a record exactly on a confirmed transaction whose logs were read, and stores those logs' events |
| `SmokeReceipt.ConfirmedCanBecomeUnknown` | src/flp/mainnetSmoke.ts:202 | one empty answer sends a confirmed record back to unknown |
| `SmokeReceipt.Journal.SubmitOnce` | src/flp/mainnetSmoke.ts:225-249 | result, records and the order of writes and sends are those of the reference, for every way writes, signing and sending can fail |
| `SmokeReceipt.SentOnlyAfterWriting` | src/flp/mainnetSmoke.ts:224-249 | a submission sends at most once, as its third step, right after writing this action's record with exactly the signature sent; it sends if and only if the guard, signing and both earlier writes succeed |
| `SmokeReceipt.SecondSubmissionRefused` | src/flp/mainnetSmoke.ts:77-80 | whatever became of a submission, a second one on the receipt it leaves writes and sends nothing |
| `SmokeReceipt.ConfirmedEventHasEvidence` | src/flp/mainnetSmoke.ts:157-162 | evidence comes from a settled record of that action and is an event of that name, of this vault and owner |
| `SmokeReceipt.CompletionNeedsEvidence` | src/flp/mainnetSmoke.ts:252-275 | a run is reported complete only on settled evidence of all three transactions that agree in request number, epoch and amounts; then nothing is left over |
| `ReceiptFile.Storage.Save` | src/bin/flp-mainnet-smoke.ts:31-39 | a save leaves the disk where exactly the system calls before the failing one take it, with the temporary, visible and durable files spelled out; it succeeds if and only if no call fails and no temporary file is in the way |
| `ReceiptFile.ReplacementIsAtomic` | src/bin/flp-mainnet-smoke.ts:31-39 | interrupted after any call, with or without a power loss, the receipt is the whole old or the whole new one; a leftover temporary file blocks it |
| `SmokeDriver.ActKeepsHolderOk` | src/bin/flp-mainnet-smoke.ts:56-137 | every step of the lock holder keeps the journal invariant, whatever it meets |
| `SmokeDriver.RunKeepsInv` | src/bin/flp-mainnet-smoke.ts:56-137 | the invariant of disk, lock, sends and every process holds in every run |
| `SmokeDriver.NextInOrder` | src/flp/mainnetSmoke.ts:163-195 | an action let through by guard and evidence is the next of deposit, request-withdraw, claim |
| `SmokeDriver.NeverSentTwice` | src/bin/flp-mainnet-smoke.ts:56-137 | in every interleaving and with every crash, sends are for distinct actions in order, and each stays recorded with its signature in the file and its durable copy |
| `SmokeDriver.SendIsJournalled` | src/flp/mainnetSmoke.ts:238-242 | at every send the file and its durable copy agree and end in this action's signed record with exactly the signature sent, and the action had not been sent before |
| `SmokeDriver.ReceiptsAreOrdered` | src/flp/mainnetSmoke.ts:163-195 | every reachable receipt records distinct actions, a prefix of deposit, request-withdraw, claim, only the last possibly unsigned; one process at most is past the lock |
| `SmokeDriver.AppendedOnlyAfterSettled` | src/flp/mainnetSmoke.ts:77-80 | the file grows by one bare record at a time, and only when every earlier record is confirmed or finalized, and signed |
| `SmokeDriver.StaleLockBlocks` | src/bin/flp-mainnet-smoke.ts:57-58 | while a lock stands whose holder is gone, no process, however many are started, changes the receipt or sends |
| `SmokeRuns.SendPossibleIff` | src/flp/mainnetSmoke.ts:77-80 | in every reachable state a later send is possible if and only if a process is signing, saving a signature or sending, or the file or its durable copy is open: its last record signed and not every action recorded |
| `SmokeRuns.UnsignedRecordStopsSending` | src/flp/mainnetSmoke.ts:230-239 | once an unsigned record is durable, a later send is possible if and only if some process is about to sign it or is saving its signature, or the file already has the signature and fewer than three records |
| `SmokeRuns.UnsignedRecordCanStillBeSent` | src/flp/mainnetSmoke.ts:231-241 | a reachable state with an unsigned record in the file and its durable copy from which a send follows |
| `SmokeRuns.SignedFileReopens` | src/bin/flp-mainnet-smoke.ts:36-39 | a reachable state with nobody running and an unsigned durable record, the file already signed, from which a send follows |
| `SmokeRuns.DriverFollowsSubmission` | src/bin/flp-mainnet-smoke.ts:122-132 | every outcome of a submission has a run: a process left alone can end with the records, files, sends and outcome it prescribes, for every way it can turn out |
| `SmokeRefinement.DriverIsSubmission` | src/bin/flp-mainnet-smoke.ts:122-132 | every run of a process left alone at the guard sends at most once, and when it has ended it has the records, sends, durable receipt and outcome of a submission |
| `SseParser.SplitIsUnique` | src/streams.ts:62-64 | complete lines and remainder are the one way to cut a text at LF |
| `SseParser.Parser.Push` | src/streams.ts:57-86 | one push leaves the buffer without LF and emits the frames and keeps the fields of the reference fold |
| `SseParser.Parser.Accept` | src/streams.ts:63-83 | one raw line updates the pending frame, or dispatches it, as its parsed form says |
| `SseParser.Parser.FlushCurrent` | src/streams.ts:88-109 | a frame is emitted if and only if a field was set; its raw text, id and event name; data parsed if and only if it starts like an object or array and parses; and nothing is carried over |
| `SseParser.RawDeterminesData` | src/streams.ts:92 | the raw text of a frame with data determines its data lines |
| `SseParser.ChunkingIrrelevant` | src/streams.ts:57-86 | any cut of a text into chunks gives the frames and the final state of pushing it whole |
| `SseParser.FoldIsBlockwise` | src/streams.ts:62-107 | folding line by line equals reading each block between blank lines by itself: last event, last id, all data |
| `SseParser.ParserMeetsReference` | src/streams.ts:57-109 | fed any text in any chunks, the parser emits one frame for each closed block that sets a field and keeps the open block and the unfinished line |
| `SseParser.PrintThenParse` | src/streams.ts:57-109 | printable frames, printed with comment lines anywhere and pushed in any chunks, come back with the same event, id and raw text, nothing left over |
| `HandOff.Channel.Deliver` | src/streams.ts:196-205 | a value goes to the waiter if there is one and to the queue otherwise |
| `HandOff.Channel.Finish` | src/streams.ts:162-172 | the first finish settles the waiter and fixes the reason; later ones do nothing |
| `HandOff.Channel.Next` | src/streams.ts:216-226 | a call is answered from the queue, then with the end, else takes the waiter slot, over an earlier waiter if there is one |
| `HandOff.Channel.Close` | src/streams.ts:227-239 | closing is finishing without an error |
| `HandOff.RunIsSound` | src/streams.ts:156-239 | in every run a waiter means an empty queue and a live stream, and the values delivered followed by the queue are the values produced, in order |
| `HandOff.EndOnlyAfterDraining` | src/streams.ts:217-222 | the end or the error is reported only when all that was produced has been delivered |
| `HandOff.FinishSettles` | src/streams.ts:162-172 | finishing always settles the waiting call with the reason of the first finish |
| `HandOff.ReasonIsFinal` | src/streams.ts:162-172 | no later event changes the reason or leaves a call waiting |
| `HandOff.NoAnswerLostIffOneAtATime` | src/streams.ts:216-226 | every call is answered in order or is the one waiting if and only if none was made while another waited; each overlap costs exactly one answer |
| `HandOff.OverlapLosesTheFirstCall` | src/streams.ts:223-225 | two overlapping calls: the value goes to the second, the first is never answered |
| `StreamPump.Receive` | src/streams.ts:192-206 | a chunk's frames are handed over one by one, leaving parser and hand-off as one step of the stream |
| `StreamPump.StreamDelivers` | src/streams.ts:143-241 | however text is cut and calls fall between chunks, the frames delivered followed by those queued are the frames of the text received so far |
| `StreamPump.EndAfterEveryFrame` | src/streams.ts:207-222 | when the consumer is told of the end or an error, it has been given every frame of the text received |
| `WireCodec.EncodersReadBack` | src/intents.ts:150-193 | each integer encoder accepts exactly its range, and its bytes read back to the value |
| `WireCodec.FlattenInjective` | src/intents.ts:202-209 | fields of the same widths are determined by their concatenation, whatever follows |
| `WireCodec.PlaceOrderReadsBack` | src/intents.ts:283-310 | exactly the in-range orders encode, always into 49 bytes, and a reader at fixed offsets recovers every field |
| `WireCodec.ReadPayloadIsCanonical` | src/intents.ts:283-310 | whatever the reader accepts is what the encoder writes for what it read |
| `WireCodec.PayloadReadsBack` | src/intents.ts:272-328 | one reader tells the three queue payloads apart and recovers each |
| `WireCodec.PayloadIsCanonical` | src/intents.ts:272-328 | of all three, whatever the reader accepts is what is written for what it read |
| `RuntimeFlags.MergeEffectiveRuntimeFlags` | src/intents.ts:344-373 | order and length kept; each account's flags are the OR over all its occurrences in fixed and remaining accounts |
| `RuntimeFlags.MergeIdempotent` | src/intents.ts:344-373 | merging twice is merging once |
| `RuntimeFlags.FixedOrderIrrelevant` | src/intents.ts:380-384 | order and repetition of the fixed accounts do not matter |
| `RuntimeFlags.FillAccountBytes` | src/intents.ts:330-340 | the offset-driven fill equals the concatenation of 34-byte records |
| `RuntimeFlags.AccountBytesInjective` | src/intents.ts:330-340 | equal account bytes mean equal account lists, flags included |
| `RuntimeFlags.DirectEnqueueAccounts` | src/intents.ts:388-413 | the flags a direct enqueue hashes, account by account, with the first owner entry cleared |
| `SignedMessages.DomainsPrefixFree` | src/intents.ts:448-561 | the domains of two message kinds differ at a position both have |
| `SignedMessages.KindsNeverCollide` | src/intents.ts:448-561 | preimages of different kinds never coincide |
| `SignedMessages.CancelInjective` | src/triggerOrders.ts:490-516 | a cancellation's length-prefixed ids and its head are determined by its bytes, after defaults |
| `SignedMessages.PreimagesInjective` | src/triggerOrders.ts:75-105 | equal preimages, of any kinds, mean equal messages up to the defaults of parameters left out |
| `SignedMessages.DefaultsAreSigned` | src/triggerOrders.ts:507-512 | parameters left out are signed as their defaults |
| `TriggerLegs.BuildTriggerOrderLeg` | src/triggerOrders.ts:153-249 | the salt-retry loop builds the leg of the first salt whose commitment is not zero |
| `TriggerLegs.LegBuildsIff` | src/triggerOrders.ts:153-249 | a leg is built if and only if it passes the checks, its expiry is a positive safe integer, and a salt tried before one fails has a commitment other than zero |
| `TriggerLegs.BuiltLegOrder` | src/triggerOrders.ts:189-248 | a built leg's payload reads back as the reduce-only immediate-or-cancel order of its parameters, carrying the commitment to its terms |
| `TriggerLegs.BuiltLegPasses` | src/triggerOrders.ts:369-410 | every leg the builder returns passes every check before submission but the signature's |
| `TriggerLegs.PassingLegIsBoundedOrder` | src/triggerOrders.ts:380-410 | a passing payload is an order if and only if its header, side and self-trade bytes are; then it is immediate-or-cancel, reduce-only, and its id and expiry are those of the terms |
| `TriggerLegs.HeaderIsNotChecked` | src/triggerOrders.ts:380-387 | any passing leg passes with another version byte and its hash made anew, and is then no order |
| `TriggerLegs.SameHashSameLeg` | src/triggerOrders.ts:369-410 | two passing legs with one intent hash have the same payload, id, group, account, signer, market, accounts with their flags, and commitment, unless their own intents, payloads or account lists are different byte strings with one digest |
| `TriggerLegs.DefaultLimitIsMarketable` | src/triggerOrders.ts:180-188 | a default limit is marketable at the trigger and within the slippage up to less than a lot, long and short alike |
| `TriggerLegs.DefaultLimitChecks` | src/triggerOrders.ts:186-188 | without a caller's limit the limit checks fail only when the default rounds to zero or does not fit |
| `TriggerLegs.PairBracketsTheOracle` | src/triggerOrders.ts:252-264 | with an oracle price, a built pair lies strictly on both sides of it, no price meets both triggers, and both carry one non-zero group |
| `TriggerLegs.SingleLegHasNoGroup` | src/triggerOrders.ts:260 | a single leg carries group zero |
| `TriggerLegs.PairBuilds` | src/triggerOrders.ts:252-264 | a pair builds when both legs pass the checks, the expiry is in range and the digest never starts with eight zero bytes |
| `TriggerLegs.SomePairBuilds` | src/triggerOrders.ts:252-264 | a concrete pair that builds around an oracle price |
| `Redaction.StripForbiddenKeys` | src/triggerOrderViews.ts:370-388 | the recursive loop equals the reference for every value and depth |
| `Redaction.PickScalarFields` | src/triggerOrderViews.ts:324-341 | exactly the scalar values under the named keys are picked |
| `Redaction.WhitelistLeg` | src/triggerOrderViews.ts:347-368 | the leg view's scalars and its two detail objects are kept, nothing else |
| `Redaction.RedactResponse` | src/triggerOrderViews.ts:396-410 | the response is stripped, then the legs under orders and order are whitelisted |
| `Redaction.StripIsClean` | src/triggerOrderViews.ts:370-388 | no forbidden key survives at any depth |
| `Redaction.StripAfterErase` | src/triggerOrderViews.ts:370-388 | erasing forbidden keys everywhere beforehand changes nothing |
| `Redaction.StripIdempotent` | src/triggerOrderViews.ts:370-388 | stripping twice is stripping once |
| `Redaction.StripFixes` | src/triggerOrderViews.ts:370-388 | stripping leaves a value alone if and only if it has no forbidden key and is not too deep |
| `Redaction.OtherResponsesPass` | src/triggerOrderViews.ts:390-410 | a response without legs passes unchanged if and only if it is clean and not too deep |
| `Redaction.RedactedIsClean` | src/triggerOrderViews.ts:396-410 | what leaves holds no forbidden key at any depth |
| `Redaction.RedactNonInterference` | src/triggerOrderViews.ts:396-410 | responses that differ only under forbidden keys are redacted to the same output |
| `Redaction.WhitelistFixes` | src/triggerOrderViews.ts:324-368 | the whitelist leaves an object alone if and only if it is a leg view: view keys only, scalars but under the two details, and those null or objects of their own scalars |
| `Redaction.RedactedLegsAreViews` | src/triggerOrderViews.ts:401-408 | every leg that leaves, in the list or by itself, is a leg view, its details included |
| `Redaction.RedactIdempotent` | src/triggerOrderViews.ts:396-410 | redacting twice is redacting once |
| `LegSanitizer.SanitizedIsWellFormed` | src/triggerOrderViews.ts:248-313 | only views well formed in every field come out of the strict sanitizer |
| `LegSanitizer.SanitizeFixesWellFormed` | src/triggerOrderViews.ts:248-313 | the sanitizer returns a view unchanged if and only if it is well formed |
| `LegSanitizer.SanitizedLegsAreStable` | src/triggerOrderViews.ts:248-313 | what the sanitizer returns it accepts again unchanged, and the lenient whitelist is the identity on it |
| `LegBridge.AcceptedLegFixedIff` | src/triggerOrderViews.ts:347-368 | on a leg the sanitizer accepts, the whitelist is the identity if and only if the leg has view keys only and its details are null or objects of their own scalars |
| `LegBridge.ExtraKeyIsDropped` | src/triggerOrderViews.ts:354-366 | every well-formed leg with one key more is accepted, and the whitelist changes it |
| `LegBridge.WhitelistFirstDiffersIff` | src/triggerOrderViews.ts:248-368 | whitelisting before sanitizing changes the result if and only if the leg is otherwise acceptable and a reason is no scalar, or its last fire is in order but for an outcome or sequence that is no scalar |
| `LegBridge.WhitelistFirstOnlyAdds` | src/triggerOrderViews.ts:248-368 | a leg accepted without the whitelist is accepted after it with the same view, at most gaining a last fire |
| `Base58.Encode` | src/bin/flp-mainnet-smoke.ts:24-30 | the loops compute the base-58 form of the bytes, one leading 1 for each leading zero; an empty array is an error |
| `Base58.Decode` | src/flp/index.ts:125-137 | the loops compute the bytes of a text, or an error for a character outside the alphabet |
| `Base58.TranscodeInverse` | src/bin/flp-mainnet-smoke.ts:24-30 | rewriting a digit string in another base and back gives it back, leading zeros included |
| `Base58.DecodeEncode` | src/flp/index.ts:126-137 | decoding the encoding of any non-empty byte string gives it back |
| `Base58.EncodeDecode` | src/bin/flp-mainnet-smoke.ts:24-30 | encoding the decoding of any non-empty valid text gives it back |
| `Base58.DecodesExactlyTheAlphabet` | src/flp/index.ts:128-132 | a text decodes if and only if every character is in the alphabet |
| `EpochWalk.Walk` | src/flp/index.ts:457-473 | within maxBatches fetches on any graph, either the first min(maxBatches, length) epochs of the list, distinct and deferred, or the error of the first position that fails, after exactly the fetches up to it |
| `EpochWalk.WalkIsDetermined` | src/flp/v4.ts:323-334 | a graph allows one outcome only: the same batches, or the same error, after the same number of fetches |
| `EpochWalk.WalkHasOutcome` | src/flp/v4.ts:327-334 | every graph, cyclic or not, allows an outcome within the bound |
| `EpochWalk.SucceedsIff` | src/flp/index.ts:461-473 | a walk succeeds if and only if every epoch the list reaches within the bound is deferred and new |
| `EpochWalk.CycleWithinBoundRejected` | src/flp/index.ts:465 | any repeat reached within the bound is rejected |
| `EventQueues.FlpClient.EventQueueMetas` | src/flp/index.ts:374-397 | a call fetches exactly the unknown accounts once, fills the cache with what they are and reads the answer off it; with a cache that agrees with the chain the answer is the uncached scan |
| `EventQueues.FlpClient.InOrder` | src/flp/index.ts:386-396 | the loop over the cache lists the queue of each key that has one, at the key's first occurrence |
| `EventQueues.FlpClient.ReadMarket` | src/flp/index.ts:380-383 | the data slice decides exactly which accounts are perp markets and where their queue is |
| `EventQueues.CachedCallsAreScans` | src/flp/index.ts:312-397 | after any sequence of calls the next answer read off the cache is the event queue of each distinct perp market in order of first occurrence, and every cached entry agrees with the chain |
| `EventQueues.NoAccountFetchedTwice` | src/flp/index.ts:375-379 | over any sequence of calls no account is fetched twice |

## Left out

- Network clients, the public subscribe wrappers, PDA derivation, Borsh and Anchor coders, SHA-256 and Ed25519: foreign calls. Digests are a parameter, injectivity is proved of preimages only, and signature checks are not modelled.
- TextDecoder and JSON.parse: the parser works on characters and JSON parsing is a partial function it is given.
- `subscribeTicks`: it has the shape of the hand-off modelled here. Abort signals and the connection loop around it are not modelled.
- The cut of a reason at 200 characters counts the characters of this model, where the code counts UTF-16 units.
- Key order, `undefined` as a value and negative zero in JSON values; a missing key stands for `undefined`.
- Fee and slippage inputs are integers: the rejection of fractional or non-finite numbers, and of unsafe integers passed as numbers, is not modelled except for a leg's expiry.
- Enumerated strings (position, cancel scope, side, order type) are datatypes, so their rejection when misspelt is not modelled.
- BuildTriggerOrderLeg: the salt-retry loop runs over a finite list of random draws and ends in `OutOfDraws` when all are used up, because the original loop has no bound.
- Walk: the fetch's own failures, its identity check among them, are one error, and only the batches are modelled, not the instruction built from them.
- EventQueueMetas: an exception from the account fetch, which leaves the cache as it was, is not modelled.
- Reconcile: records are values in a sequence, not shared objects; balances, links, block heights and the `after` snapshot of a record are not modelled. A signature is never the empty string, which the code would treat as unsigned.
- Storage.Save: the summary stored in the receipt is modelled by itself, not as part of the saved content; directory creation and file modes are left out.
- The smoke runner's argument parsing, preflight, program verification, amounts, caps and simulation: they only add exceptions, which a process may meet at any of its steps before the submission.
- The smoke runner's state machine has one receipt file; runs against several files or several machines are out of its scope. The operator removes a lock or a temporary file only when no runner is past the lock, as docs/flp-mainnet-smoke.md asks.
- The on-chain programs: fee accrual, NAV and core health are arbitrary inputs within what each theorem says.
- The trigger request body, wire terms, relayer calls, the CTM envelope and instruction assembly: single concatenations or glue.
- `pricingSupply`, vault modes, funding windows and the other single-branch gates: they would only add easy members.
