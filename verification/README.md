# P2P kilo sales backend — a Dafny model of its ledger and rules

The backend lets travellers sell spare luggage capacity, in kilograms or by item, to people who want a package carried. It is built on Django.
- A traveller publishes a **travel listing** and pays a listing fee from their wallet.
- A sender makes a **package request** against a listing. The request fee is taken from their wallet, and the request's price is **locked** (held in escrow) in that same wallet.
- The traveller accepts or rejects the request, and later completes it. Completion releases the locked price to the traveller, minus the platform's commission. Rejection refunds the lock.
- Wallets are topped up through the Chapa payment gateway. A periodic task re-verifies deposits that are still pending.
- Around this core sit chat conversations between users, account registration with one-time codes, and the JSON response envelope every endpoint answers with.

This project models those parts.

- **The ledger.**
  - A `Wallet` is a class with `balance` and `lockedBalance` fields. The transaction table is a `seq<Transaction>` held by a `Ledger` class, with unique references.
  - Each wallet operation is one atomic method. It is proved to follow a function on the two numbers of the wallet (`Funds`).
  - Lemmas state what those functions promise:
    - the balance checks agree with the deductions;
    - money is conserved once platform revenue is counted;
    - non-negative wallets stay non-negative;
    - a deposit is credited once.
- **The gateway and the sweep.**
  - The Chapa replies are inputs: success, "not successful", or an exception.
  - Only the local bookkeeping is modelled: the PENDING row, the FAILED row and the one-off credit.
  - The periodic sweep is a loop over the table, proved against a per-row function.
- **The request life cycle.**
  - The status-change hook decides between releasing the payment, refunding the lock, or doing nothing.
  - The accept, reject and complete actions, and the capacity decrement.
  - The price calculation, listing and request validation, and the compensating deletes when the wallet refuses.
  - The chat message sent when a request is created.
  - Which listings are visible to whom.
- **Messaging.**
  - Get-or-create of a two-person conversation.
  - Message creation: content or a file is required, with one attachment per file.
  - Read marking, unread counters and the notification fan-out.
  - The 24-hour edit window.
- **Accounts.**
  - Phone normalisation and validation.
  - Password confirmation and the one-time-code form.
  - Login by email, username or phone.
  - Acceptance of one-time codes.
  - The guards on setting a first password.
  - The unique-username loop of Google sign-in.
  - Profile redaction.
  - The ownership check on update.
- **Config.**
  - `standard_response`.
  - The two `finalize_response` methods: one is idempotent, the other nests envelopes.
  - The name of the day's log file.

Modelling choices:
- Money is `real`: exact decimals with no rounding.
- Timestamps are integers in seconds, and "now" is a parameter.
- Database tables are sequences that the store classes reassign.
- A lookup with `.get()` that would raise on several matches has its own outcome.

## Model

| member | source | states |
|---|---|---|
| MoneyModels.Wallet.constructor | money/models.py:6-12 | A new wallet belongs to its owner, in ETB, and both balances start at zero |
| MoneyModels.References | money/models.py:43 | The set of references holds exactly the references of the rows |
| MoneyModels.FindReference | money/models.py:43 | The lookup by reference finds a row carrying that reference (the latest), and finds nothing exactly when no row carries it |
| MoneyModels.FindReferenceUnique | money/models.py:43 | With unique references, a row's reference finds that row |
| MoneyModels.AppendFreshKeepsUnique | money/models.py:43 | Appending a row with a new reference keeps the uniqueness constraint |
| MoneyModels.UpdateKeepsReferenceSet | money/models.py:43 | Rewriting a row without changing its reference keeps the reference set and uniqueness |
| MoneyModels.LatestMatch | money/models.py:43 | The lookup returns the last row carrying the reference |
| MoneyModels.UpdateKeepsLookup | money/models.py:43 | Rewriting a row without changing its reference does not change what any reference looks up |
| MoneyModels.Ledger.constructor | money/models.py:29-48 | A new transaction table is empty, so its references are unique |
| MoneyModels.AddBank | money/models.py:53-67 | Inserting a bank fails exactly when the (gateway, code) pair exists; otherwise the bank is appended and the table stays unique per pair |
| WalletService.ListingFeeOutcome | money/wallet_service.py:29-41 | Succeeds iff the balance covers the listing fee; on refusal it reports the required fee and the balance; on success the wallet total drops by exactly the fee and the lock is unchanged |
| WalletService.RequestFeeAndLockOutcome | money/wallet_service.py:44-59 | Succeeds iff the balance covers fee plus price; on success the lock grows by the price and the wallet total drops by exactly the fee |
| WalletService.CommissionSplit | money/wallet_service.py:186-189 | The traveller's amount and the commission add up to the released amount exactly; the commission is amount times percentage over 100, with no rounding |
| WalletService.ReleaseOutcome | money/wallet_service.py:192-197 | The requester's lock falls by the whole amount and the balance stays; the traveller's balance rises by their share and the lock stays |
| WalletService.RefundOutcome | money/wallet_service.py:241-246 | A refund leaves the wallet total unchanged and lowers the lock by the amount |
| WalletService.RevenueAppend | money/wallet_service.py:93-102 | A row adds to platform revenue exactly when it is a successful SYSTEM_REVENUE row |
| WalletService.CommissionSplitBounds | money/wallet_service.py:186-189 | For a percentage between 0 and 100, both parts of the split lie between 0 and the released amount |
| WalletService.ListingFeeConserves | money/wallet_service.py:78-104 | Wallet total plus platform revenue is the same before and after the listing fee |
| WalletService.RequestFeeAndLockConserves | money/wallet_service.py:123-167 | Wallet total plus revenue is conserved by fee and lock; the lock row is not revenue |
| WalletService.ReleaseConserves | money/wallet_service.py:182-224 | Both wallets together lose exactly the commission, and that commission is added to revenue |
| WalletService.RefundConserves | money/wallet_service.py:238-258 | A refund changes neither the wallet total nor revenue |
| WalletService.NonNegativityPreserved | money/wallet_service.py:78-258 | Non-negative wallets stay non-negative under every mutation, given non-negative amounts, a percentage of at most 100 and a release or refund within the lock |
| WalletService.RequestLifecycleScenario | money/wallet_service.py:123-224 | A worked example: 100 ETB with fee 10, price 30 and 5% commission: after fee and lock 60/30, after release 60/0 for the requester and 28.5 for the traveller |
| WalletService.DeductListingFee | money/wallet_service.py:63-104 | Refused with InsufficientBalance and no change when the balance is short; otherwise the wallet follows ListingFeeOutcome and one SUCCESS LISTING_FEE / SYSTEM_REVENUE row of the fee is appended |
| WalletService.DeductRequestFeeAndLockAmount | money/wallet_service.py:108-167 | Refused with no change when balance is below fee plus price; otherwise the wallet follows RequestFeeAndLockOutcome and a REQUEST_FEE row and a PAYMENT_LOCK row are appended, in that order |
| WalletService.ReleasePaymentToTraveler | money/wallet_service.py:171-224 | Both wallets follow ReleaseOutcome; a PAYMENT_RELEASE row for the traveller's amount and a COMMISSION revenue row are appended; the lock is not checked |
| WalletService.RefundLockedAmount | money/wallet_service.py:228-258 | The wallet follows RefundOutcome and one SUCCESS PAYMENT_UNLOCK row is appended; the lock is not checked |
| ChapaService.PendingDeposit | money/services.py:18-29 | The row written before the call is a PENDING DEPOSIT of the amount, for the wallet, under the reference |
| ChapaService.InitializeTransaction | money/services.py:17-61 | The wallet never changes; exactly one row is appended; on success the checkout URL and the pending row are returned; otherwise the row ends FAILED with the outer "Chapa init error" text and that error is returned |
| ChapaService.VerifiedRow | money/services.py:71-86 | A confirmation makes the row SUCCESS, a "not successful" answer makes it FAILED whatever it was, an exception leaves it; reference, wallet, amount and type never change |
| ChapaService.RowCredit | money/services.py:71-80 | A row is credited only when the gateway confirms and the row is not yet SUCCESS, and then with exactly its amount |
| ChapaService.VerifyAnswer | money/services.py:63-91 | The call reports success iff the reference is found and the gateway confirms |
| ChapaService.VerifyLedger | money/services.py:63-91 | Verification keeps every row's reference and changes nothing for an unknown reference |
| ChapaService.VerifyTransaction | money/services.py:63-91 | The answer is VerifyAnswer and the table becomes VerifyLedger; only the wallet of the row the reference finds can change, its balance grows by exactly that row's credit and its locked balance stays |
| ChapaService.TouchedWallets | money/services.py:69-80 | Verification can touch at most one wallet, the one of the row the reference finds |
| ChapaService.VerifyLedgerRow | money/services.py:68-86 | Verification rewrites the row the reference finds, and that row is still what the reference finds |
| ChapaService.SomeSuccessCons | money/services.py:71-86 | A series of replies has a confirmation exactly when its first reply confirms or the rest of the series has one |
| ChapaService.ReplayCreditsOnce | money/services.py:72 | If the gateway never says "not successful", any series of verifications credits a reference at most once: its amount if the row was not yet SUCCESS and some reply confirms, else nothing |
| ChapaService.VerifyIdempotent | money/services.py:72 | Verifying a confirmed row again changes nothing and credits nothing |
| ChapaService.VerifyFoundAgain | money/services.py:71-77 | After one confirmation the found row is SUCCESS and still found, so a second confirmation leaves the table as it is |
| ChapaService.FailureOverridesSuccess | money/services.py:83-86 | A "not successful" answer marks even a SUCCESS row FAILED and takes no money back |
| ChapaService.VerifyNoEffect | money/services.py:88-91 | An unknown reference or an exception leaves the table and every wallet unchanged |
| ChapaService.DoubleCreditAfterFailure | money/services.py:71-86 | The replies success, not successful, success credit the same deposit twice |
| ChapaService.WithdrawalCredited | money/services.py:69-80 | The type is not checked: a pending withdrawal confirmed by the gateway is credited to the wallet |
| MoneyTasks.SweepLedger | money/tasks.py:21-35 | The sweep rewrites each row on its own: pending deposits as verification leaves them, every other row unchanged |
| MoneyTasks.SweepLog | money/tasks.py:28-35 | The sweep logs only errors, at most one per row |
| MoneyTasks.VisitRow | money/tasks.py:27-35 | One row: a pending deposit is verified, and a pending withdrawal whose check raised logs one error line; the row becomes SweptRow, and only the row's wallet is touched, by exactly RowSweepCredit |
| MoneyTasks.VerifyPendingTransfers | money/tasks.py:21-35 | Without an active gateway it fails before touching anything; otherwise every row is visited once, an error on one row does not stop the rest, and the wallet of every row is credited exactly the sweep credit |
| MoneyTasks.Sweep | money/tasks.py:25-35 | The loop visits every row read before it once, in order: the table becomes SweepLedger, the log is SweepLog, and the wallet of every row is credited exactly the sweep credit with locks untouched |
| MoneyTasks.SweepStep | money/tasks.py:27-35 | One turn of the loop sweeps one more row, appends that row's line to the log, and credits every row's wallet by exactly that row's credit |
| MoneyTasks.SecondSweepCreditsNothing | money/tasks.py:25 | Once a sweep has had a reply for every pending deposit, a second sweep credits nothing |
| MoneyTasks.SweepCreditIsConfirmedDeposits | money/tasks.py:25-33 | The credit of a sweep is non-negative; it is zero when the gateway confirms none of the wallet's pending deposits, and positive when it confirms one of a positive amount |
| MoneyTasks.SyncChapaBanks | money/tasks.py:8-17 | Every outcome, including an exception, becomes one log line, which is at info level exactly when the service reported success |
| ListingsModels.TravelListing.constructor | listings/models.py:17-46 | A listing holds its owner, departure, status, capacity and prices as given |
| ListingsModels.PackageRequest.constructor | listings/models.py:61-85 | A new request holds its fields and starts pending |
| ListingsModels.View | listings/models.py:17-46 | What validation reads from a listing is the listing's stored owner, status, departure, capacity and prices |
| ListingsModels.CapacityAfterAccept | listings/views.py:385-388 | The capacity left is never negative; the listing becomes fully booked exactly when the weight uses it up, and then the capacity is 0 |
| ListingsModels.Marketplace.constructor | listings/models.py:17-85 | The listing and request tables start empty |
| ListingsSignals.StatusChangeAction | listings/signals.py:19-64 | The release fires exactly on accepted to completed, the refund exactly on pending or accepted to rejected; new rows, missing rows and unchanged statuses do nothing |
| ListingsSignals.TransitionTable | listings/signals.py:36-59 | The action for each transition of the request state machine |
| ListingsSignals.SaveStatus | listings/signals.py:19-64 | Saving a new status runs the hook's wallet call (release, refund or nothing) and then stores the status, leaving the other request fields unchanged |
| ListingsSignals.TripsCreated | listings/signals.py:73-81 | The trips-created counter is the count the handler takes: the number of listings the user owns, never more than the listings |
| ListingsSignals.OffersSent | listings/signals.py:86-109 | The offers-sent counter is the count the handler takes: the number of requests the user made, never more than the requests |
| ListingsSignals.OffersReceived | listings/signals.py:102-104 | The offers-received counter is the count the handler takes: the number of requests on the user's listings, never more than the requests |
| ListingsSignals.CompletedAtMostReceived | listings/signals.py:124-127 | Completed deliveries are never more than the offers received |
| ListingsSignals.NewRequestCounts | listings/signals.py:86-109 | A new request adds one offer sent for its requester and one received for its traveller, and nothing for anyone else |
| ListingsSignals.CompletionCountsOnce | listings/signals.py:114-136 | Completing one accepted request adds exactly one delivery, for its traveller only, and leaves the offer counters unchanged |
| ListingsSerializers.ValidateListing | listings/serializers.py:60-95 | Valid iff some pricing field is set (sent or stored) and, on creation with a request, the balance covers the fee; no pricing gives exactly the pricing error |
| ListingsSerializers.UpdateIgnoresBalance | listings/serializers.py:84-93 | On update the wallet makes no difference to validation |
| ListingsSerializers.UpdateFallsBackToStored | listings/serializers.py:64-82 | On update the stored prices stand in for unsent ones, but prices sent as null hide the stored ones |
| ListingsSerializers.CreateListing | listings/serializers.py:97-117 | The listing exists afterwards iff the balance covers the fee; otherwise it was written and deleted again, the wallet's error is returned and nothing else changed |
| ListingsSerializers.CalculatePrice | listings/serializers.py:232-260 | The loop computes weight times price per kg plus count times price for every item, whatever it skips |
| ListingsSerializers.ItemsPrefixComplete | listings/serializers.py:232-260 | Walking all item prices in order adds up to the reference price |
| ListingsSerializers.PriceNonNegative | listings/serializers.py:232-260 | Non-negative weight and prices give a non-negative price |
| ListingsSerializers.PerFileIgnored | listings/serializers.py:232-260 | The price per file never changes a request's price |
| ListingsSerializers.EffectiveCounts | listings/serializers.py:164-230 | Each counter validated is the one sent, else the stored one, else 0 |
| ListingsSerializers.AvailableWeightIsWhatIsLeft | listings/serializers.py:197-213 | After accepting requests that fit, the stored capacity is the original minus their weights; the intended check offers exactly that, and the check as written offers the original minus twice the weights |
| ListingsSerializers.CapacityDoubleCounted | listings/serializers.py:197-213 | 10 kg offered and 6 accepted: 4 kg are left, but the check as written allows -2 and refuses 3 kg |
| ListingsSerializers.ValidateRequest | listings/serializers.py:164-230 | With the corrected capacity rule AvailableWeight (see Findings): accepted exactly when the weight has a description, the listing (if given) is published, not the requester's own, not yet departed and has room, and on creation the wallet covers fee plus price; each failed rule gives its own error in the order checked (description, not published, own listing, started, capacity with the requested and available weights, then the balance with the required amount), and the balance error only arises on creation |
| ListingsSerializers.EditIgnoresBalance | listings/serializers.py:215-228 | Editing an existing request never consults the wallet |
| ListingsSerializers.CreateRequest | listings/serializers.py:262-279 | The request is stored with the calculated price iff fee and lock are taken; otherwise it is deleted again and the wallet's error is returned |
| ListingsSerializers.UpdateRequest | listings/serializers.py:281-285 | The given fields are set, the price is recomputed from the new values, the status stays, and the wallet lock is not adjusted |
| ListingsSerializers.RepricedReleaseOverdrawsLock | listings/serializers.py:281-285 | After a lock of 30 an edit makes the price 50, and the release then takes 50 from a lock of 30 |
| ListingsViews.Accept | listings/views.py:318-400 | Through the lookup (listings/views.py:318-327) and the object permission (listings/views.py:36-53), a user who is neither the requester nor the listing's owner gets 404, the requester gets the permission's 403, and nothing changes; the owner is refused with 400 unless the request is pending; otherwise the request becomes accepted and the capacity follows CapacityAfterAccept; no money moves |
| ListingsViews.Reject | listings/views.py:403-445 | 404 for strangers and 403 for the requester, nothing changed; for the owner only from pending; the request becomes rejected and its price moves from the requester's lock back to the balance |
| ListingsViews.Complete | listings/views.py:448-489 | 404 for strangers and 403 for the requester, nothing changed; for the owner only from accepted; the request becomes completed and the payment is released to the traveller net of commission |
| ListingsViews.CompleteListing | listings/views.py:180-197 | A listing the listing query does not show to the caller under the status and date parameters is a 404 with nothing changed, even for its owner; of the listings shown, anyone but the owner gets 403 and the owner's becomes completed; capacity and prices stay |
| ListingsViews.FullyBookedNotCompletable | listings/views.py:118-127 | Without a status filter the owner does not see their fully booked listing, so cannot complete it; with the filter "fully-booked" they can |
| ListingsViews.EscrowRoundTrip | listings/views.py:351-489 | Over a request's life the lock returns to where it started: completion pays the traveller the price net of commission, and rejection returns the price to the balance |
| ListingsViews.ItemLines | listings/views.py:237-246 | No more item lines than items |
| ListingsViews.ItemLinesNonEmpty | listings/views.py:237-246 | Some item line is written exactly when some counter is above zero |
| ListingsViews.BuildRequestMessage | listings/views.py:237-249 | The message is refused iff there is no item and no weight; otherwise it is the item lines and the weight line joined by newlines |
| ListingsViews.PerformCreateAsWritten | listings/views.py:206-225 | When the wallet refuses, its error is returned; otherwise the request is saved, fee and lock are taken, and the call ends in a server error on the missing `package_request` attribute |
| ListingsViews.PerformCreate | listings/views.py:206-255 | As intended (see Findings): the request is saved (fee and lock taken) before the emptiness check, so an empty request is refused with the wallet already charged; otherwise the message lists the items |
| ListingsViews.VisibleListings | listings/views.py:87-166 | A listing is shown exactly when the visibility rule and the date filter both allow it |
| ListingsViews.AnonymousSeesPublished | listings/views.py:128-137 | Anonymous users see only published listings, and nothing for any other status filter |
| ListingsViews.StatusFilterShowsOwn | listings/views.py:118-127 | With a status filter a signed-in user sees only their own listings |
| ListingsViews.UnparsableDateEmpty | listings/views.py:159-164 | An unparsable travel date gives an empty list |
| ListingsViews.FullyBookedHidden | listings/views.py:118-137 | Without a status filter nobody sees a fully booked listing, not even its owner |
| MessagingModels.MessagingStore.constructor | messaging/models.py:7-80 | A new store is empty and valid: no id is shared within a table, and the next ids are fresh |
| MessagingModels.MessagingStore.GetOrCreateConversation | messaging/models.py:22-43 | The first two-person conversation holding both users is returned, not created; otherwise a new one with participants {user1, user2} goes to the front and is returned as created |
| MessagingModels.FindPair | messaging/models.py:29-35 | The lookup finds the first conversation with exactly two participants among which both users, and nothing when there is none |
| MessagingModels.PairMeansExactlyThese | messaging/models.py:29-35 | For two different users a match is exactly a conversation of those two |
| MessagingModels.FindPairSymmetric | messaging/models.py:29-35 | The order of the two users does not matter |
| MessagingModels.SecondCallFindsSame | messaging/models.py:29-43 | A second call for the same two different users finds what the first one returned |
| MessagingModels.SelfConversationNeverFound | messaging/models.py:38-41 | A conversation created for (u, u) has one participant and is never matched afterwards |
| MessagingModels.SelfLookupFindsPartner | messaging/models.py:29-35 | Whenever u has a conversation with exactly one other user, the lookup for (u, u) finds a two-person conversation of u's, at or before that one |
| MessagingSerializers.AttachmentsFor | messaging/serializers.py:68-76 | One attachment per file, in upload order, each with that file's name and type |
| MessagingSerializers.AddAttachments | messaging/serializers.py:68-76 | The attachment rows for the files are appended and nothing else changes |
| MessagingSerializers.CreateMessage | messaging/serializers.py:55-78 | Refused, with nothing created, iff there is no file and the content is null or empty; otherwise an unread message is appended, followed by one attachment per file |
| MessagingSerializers.Changed | messaging/serializers.py:80-99 | Only the conversation and the content can change, each to the new value when one is given |
| MessagingSerializers.UpdateMessage | messaging/serializers.py:80-99 | The given fields are set and the files are appended as attachments; existing attachments are never removed |
| MessagingSerializers.StandaloneAttachment | messaging/serializers.py:12-24 | With a file, the attachment's name and type are the file's |
| MessagingSerializers.ValidateConversation | messaging/serializers.py:135-140 | Fewer than two ids are refused; otherwise the ids pass unchanged |
| MessagingSerializers.CreateConversation | messaging/serializers.py:135-146 | Fewer than two ids are refused with nothing created; an id naming no user fails after the conversation row was created, which stays without participants; otherwise the new conversation's participants are exactly the given ids |
| MessagingSerializers.RepeatedIdMakesSoloConversation | messaging/serializers.py:135-146 | The same id twice passes the check and makes a conversation of one participant |
| MessagingViews.FindConversation | messaging/views.py:67-76 | The lookup finds a conversation with that id, or there is none |
| MessagingViews.FindMessage | messaging/views.py:136-140 | The lookup finds a message with that id, or there is none |
| MessagingViews.IsReadValueIgnoresCase | messaging/views.py:47-50 | The is_read value is read case-insensitively |
| MessagingViews.IsReadValues | messaging/views.py:47-50 | Examples: "TRUE", "Yes" and "1" read as true; "false", "on" and "" as false |
| MessagingViews.FindConversationExact | messaging/views.py:68 | With the store's unique ids the lookup finds exactly the conversation carrying the id |
| MessagingViews.FindMessageExact | messaging/views.py:137 | With the store's unique ids the lookup finds exactly the message carrying the id |
| MessagingViews.MessagesAction | messaging/views.py:42-63 | A conversation that is not the user's (the lookup of messaging/views.py:26-28) is a 404; otherwise exactly the messages of the conversation passing both filters, latest first when stored in creation order |
| MessagingViews.ListedMessages | messaging/views.py:42-63 | A message is listed exactly when it is in the conversation and passes the read-state filter and the sender filter |
| MessagingViews.ListedLatestFirst | messaging/views.py:44 | Messages stored in creation order are listed latest first |
| MessagingViews.Preview | messaging/views.py:88 | The preview is the first 30 characters of the content, or all of it when shorter |
| MessagingViews.NotificationTextAsWritten | messaging/views.py:83-91 | The notification text fails exactly when the content is null |
| MessagingViews.NotificationText | messaging/views.py:83-91 | Agrees with the code as written wherever that succeeds |
| MessagingViews.FileOnlyMessageBreaksNotification | messaging/views.py:88 | A message with a file and no content passes validation, and then the notification step fails |
| MessagingViews.NotifiedOnceExtend | messaging/views.py:83-91 | Notifying one more user who has not been notified keeps everyone notified exactly once |
| MessagingViews.NotifyStep | messaging/views.py:83-91 | One turn of the loop keeps "every participant visited so far except the sender is notified once" |
| MessagingViews.NotifyParticipants | messaging/views.py:83-91 | Every participant except the sender gets exactly one unread notification for the conversation, and no one else gets one |
| MessagingViews.BodyConversationError | messaging/views.py:69-71 | The serializer's required `conversation` field passes exactly when it names an existing conversation; otherwise "This field is required." or the invalid-pk message |
| MessagingViews.SendMessage | messaging/views.py:67-94 | A sender outside the conversation is refused with nothing changed, then a missing or unknown `conversation` field gives 400 with nothing changed; otherwise the message is created and the other participants are notified once each, with the corrected NotificationText (see Findings) |
| MessagingViews.UnreadCount | messaging/views.py:103-109 | The unread count never exceeds the number of messages |
| MessagingViews.UnreadCounts | messaging/views.py:99-111 | Exactly the user's conversations are keys, each mapped to its unread messages not sent by the user |
| MessagingViews.MarkRead | messaging/views.py:140-150 | Exactly the messages of the conversation up to the target, not sent by the reader, become read; every other message is unchanged |
| MessagingViews.MatchCount | messaging/views.py:140-150 | The count of rows updated never exceeds the number of messages |
| MessagingViews.MarkAsRead | messaging/views.py:136-151 | A missing message, or one outside the reader's conversations, is refused; otherwise the table becomes MarkRead and the number matched is returned, as intended (the broadcast is left out) |
| MessagingViews.MarkReadIdempotent | messaging/views.py:140-150 | Marking again changes nothing |
| MessagingViews.MarkLaterCoversEarlier | messaging/views.py:140-150 | Marking up to a later message covers an earlier mark |
| MessagingViews.UnreadAfterMark | messaging/views.py:140-150 | After marking, what remains unread for the reader in that conversation is exactly what came after the target |
| MessagingViews.UnreadDropBoundedByMatches | messaging/views.py:140-150 | The unread count falls by no more than the number of rows matched |
| MessagingViews.AttachmentsNotOf | messaging/views.py:171-178 | After a delete, exactly the attachments of other messages remain |
| MessagingViews.GuardedUpdate | messaging/views.py:153-169 | Refused (nothing changed) iff the message is more than 24 hours old; otherwise the serializer's update is applied |
| MessagingViews.GuardedDestroy | messaging/views.py:171-178 | Refused iff the message is more than 24 hours old; otherwise the message and its attachments are removed |
| MessagingViews.EditWindowBoundary | messaging/views.py:155-178 | For every time: a message exactly 24 hours old can still be changed; one second older cannot |
| UsersModels.Directory.constructor | users/models.py:33-96 | The account and one-time-code tables start empty |
| UsersModels.FindAccount | users/models.py:33-50 | The lookup by id finds an account with that id, or there is none |
| UsersModels.Directory.Add | users/serializers.py:397-405 | Saving a new account appends it under the next id, moves the next id on by one, keeps every id below it and leaves the codes alone |
| UsersModels.Directory.Replace | users/views.py:263-267 | Saving changes to an existing account keeps its position and id, keeps every id below the next one and leaves the codes alone |
| UsersModels.NextIdIsFresh | users/models.py:33-48 | While every id is below the next one, the next id belongs to no account |
| UsersSerializers.ValidatePhone | users/serializers.py:37-43 | Valid iff the digits number 10 to 15 and no account has them; the result is the digits; each failure gives its own message |
| UsersSerializers.ValidPhoneIsNormal | users/serializers.py:45-57 | Normalising a validated number again leaves it unchanged |
| UsersSerializers.PhoneFormattingIgnored | users/serializers.py:37-43 | Two inputs with the same digits validate the same way |
| UsersSerializers.CheckConfirmation | users/serializers.py:265-273 | Each password form refuses exactly when the two passwords differ, with that form's message |
| UsersSerializers.PasswordFieldErrors | users/serializers.py:265-273 | A password field is valid iff the stripped value has at least 8 characters; a blank value gets "This field may not be blank." and a short one the length message |
| UsersSerializers.PhoneFieldError | users/models.py:35 | The phone field passes exactly when its stripped text is non-empty, at most 15 characters (the column's limit) and valid for ValidatePhone; a longer text gets the max-length message |
| UsersSerializers.RegistrationErrors | users/serializers.py:22-43 | No error iff the email and username are free and the phone field passes; a taken email or username gets the unique validator's own message, which runs before the serializer's checks |
| UsersSerializers.Register | users/serializers.py:45-57 | Refused, with no change, exactly when the form has errors, with those errors; a missing first or last name then raises on the missing key with no change; otherwise one account is added under the next id, with the normalised phone, an unusable password and nothing verified |
| UsersSerializers.TelegramErrors | users/serializers.py:360-407 | No error iff the username is free, a given email is free, the phone field passes and both passwords are long enough and equal; a taken username is the first error, with the unique validator's message |
| UsersSerializers.TelegramInsertAsWritten | users/models.py:34 | The insert succeeds, storing the account as given, exactly when the account has an email; a null email fails on the column |
| UsersSerializers.TelegramWithoutEmailFails | users/serializers.py:399-405 | A Telegram registration the form accepts without an email fails at the insert as written |
| UsersSerializers.RegisterWithTelegram | users/serializers.py:385-407 | As intended (see Findings): refused with no change exactly when the form has errors, then on a missing name key; otherwise the account TelegramAccount describes is added under the next id, with a phone number that passed validation |
| UsersSerializers.TelegramAccount | users/serializers.py:393-405 | The new account has the normalised phone marked verified, an unverified email that is null when missing or blank, and the stripped password, usable |
| UsersSerializers.CheckOtp | users/serializers.py:283-301 | A code is accepted iff, once stripped, it is exactly six digits |
| UsersSerializers.SixDigitsAccepted | users/serializers.py:298-301 | Six digits are accepted, with or without surrounding whitespace |
| UsersSerializers.ValidatePriceSettings | users/serializers.py:415-426 | Valid iff every given value is above zero; otherwise the first value that is not is reported |
| UsersSerializers.FullName | users/serializers.py:80-81 | The full name has no surrounding whitespace |
| UsersSerializers.FullNameOfTwoNames | users/serializers.py:80-81 | Two trimmed names give first, space, last |
| UsersSerializers.FullNameWithoutFirst | users/serializers.py:80-81 | Without a first name the space disappears |
| UsersSerializers.Represent | users/serializers.py:83-114 | Without a request, or for the owner or a superuser, everything is shown; anyone else loses exactly the sensitive keys, and every other key keeps its value |
| UsersViews.ErrorLines | users/views.py:235-239 | One error line per form error |
| UsersViews.LoginPhone | users/views.py:52-54 | A login name that is digits apart from plus signs is looked up by those digits alone |
| UsersViews.DigitsOfPhoneName | users/views.py:52-54 | For such a name, its digits are the name without its plus signs |
| UsersViews.PlusPrefixedPhone | users/views.py:52-54 | A number typed with a leading plus finds the account stored with its digits |
| UsersViews.MatchCount | users/views.py:55-65 | No account matches the login name exactly when the count is zero |
| UsersViews.FirstMatch | users/views.py:55-65 | The first matching account, or none exactly when nothing matches |
| UsersViews.Login | users/views.py:41-90 | A missing or empty field is refused with 400; no matching account gives "Invalid credentials" and several matches raise; a login succeeds only for the single matching account, with the right password, if it is active |
| UsersViews.LoginOfUniqueMatch | users/views.py:55-79 | For the single matching account with the right password, an active account logs in and an inactive one gets "Account disabled" |
| UsersViews.DisabledOnlyAfterPassword | users/views.py:68-79 | "Account disabled" is only said to someone who gave the right password |
| UsersViews.WrongPasswordLooksUnknown | users/views.py:68-79 | A wrong password gets the same answer as an unknown login name |
| UsersViews.OtpMatchCountZero | users/views.py:245-257 | No code matches exactly when the count is zero |
| UsersViews.FindOtp | users/views.py:246-256 | The lookup finds a matching code, or there is none |
| UsersViews.OtpFormErrors | users/serializers.py:283-301 | No form error iff the account exists and the code is six digits |
| UsersViews.Verified | users/views.py:258-264 | Accepting a code sets the email or phone flag for its purpose and changes nothing else |
| UsersViews.VerifyOtp | users/views.py:233-272 | Form errors give 400; no unused, young enough, matching code gives "Invalid or expired OTP"; one match is marked used and the account flagged verified |
| UsersViews.UsedCodeNoLongerMatches | users/views.py:246-260 | An accepted code is refused the second time |
| UsersViews.OtpMatchCountUpdate | users/views.py:246-260 | Marking a code used removes exactly its own match |
| UsersViews.ExpiredCodeRefused | users/views.py:246-252 | A code older than ten minutes never matches |
| UsersViews.SetPasswordFormErrors | users/serializers.py:350-358 | Valid iff both stripped passwords have at least 8 characters and are equal |
| UsersViews.SetPasswordCheck | users/views.py:740-766 | Passes iff the form is valid, the account exists, its email is verified and it has no usable password, and then names that account; a valid form for an unknown account gives 404 "User not found" |
| UsersViews.FirstPasswordAccount | users/views.py:749-766 | Once the form is valid: passes iff the account exists with a verified email and no usable password; an unknown account gives 404 |
| UsersViews.SetFirstPassword | users/views.py:740-776 | The password is set exactly when the checks pass; otherwise nothing changes |
| UsersViews.LocalPart | users/views.py:1131 | The local part is a prefix of the email with no '@' |
| UsersViews.CandidatesDistinct | users/views.py:1131-1137 | Candidate usernames with different counters are different |
| UsersViews.TriedBound | users/views.py:1131-1137 | Counting up through taken names never goes past the number of taken names, so the loop ends |
| UsersViews.TriedCount | users/views.py:1131-1137 | The first n candidates are n distinct names |
| UsersViews.UniqueUsername | users/views.py:1131-1137 | The result is free, and it is the first candidate that is free |
| UsersViews.FindByEmail | users/views.py:1122-1128 | The lookup by email finds an account with that email, or none has it |
| UsersViews.GoogleSignIn | users/views.py:1122-1169 | When the Google id must be stored but another account already holds it (the unique column of users/models.py:38), the save fails and the call ends in a server error with no account changed; otherwise an account with that email gets the Google id if it had none (and one that has one signs in unchanged), and with no such account one account is added under the next id: active, email verified, with the given names, no phone, an empty password and the Google id, under the first candidate username no account uses; Google ids stay unique |
| UsersViews.CheckUpdate | users/views.py:145-153 | Refused with 403 exactly when the requester is neither a superuser nor the account's owner |
| ConfigUtils.StandardResponse | config/utils.py:34-53 | The envelope has exactly the four keys; status is SUCCESS iff the code is below 400; the code is echoed in the body and on the response; null data becomes {} and a null error becomes [] |
| ConfigUtils.SuccessIffBelow400 | config/utils.py:47 | SUCCESS exactly below 400, FAILED exactly from 400 |
| ConfigUtils.SplitExt | config/utils.py:18 | The two parts give back the path; the extension is empty or a single dotted suffix with no '/' |
| ConfigUtils.FormatDate | config/utils.py:19 | The date text has at least 10 characters and holds no '.' or '/' |
| ConfigUtils.FormatDateReadsBack | config/utils.py:19 | Reading the date text back as year, month and day gives the date again |
| ConfigUtils.LogFileName | config/utils.py:17-20 | The file name is the configured name, lengthened by a dash and the date |
| ConfigUtils.DatedNameKeepsExtension | config/utils.py:17-20 | The day's file splits into the base plus "-" plus the date, and the original extension |
| ConfigViews.EnvelopeRecognised | config/views.py:12-14 | What standard_response builds is recognised as an envelope |
| ConfigViews.StandardizeResponse | config/views.py:8-19 | An envelope passes unchanged; anything else is wrapped with its data (or {}) and its status code kept |
| ConfigViews.ViewSetFinalize | config/views.py:21-32 | An envelope, or a response without data, passes unchanged; other responses are wrapped once |
| ConfigViews.ViewSetFinalizeIdempotent | config/views.py:21-32 | Finalizing twice on the viewset base is finalizing once |
| ConfigViews.ApiViewFinalize | config/views.py:51-57 | Every response with data is wrapped, with its data and its status code |
| ConfigViews.ApiViewFinalizeNests | config/views.py:51-57 | Finalizing twice nests the first envelope as the data of the second |
| Text.DigitsOnly | users/serializers.py:39 | Only digits are kept, and the result is no longer than the input |
| Text.DigitsOnlyIdempotent | users/serializers.py:47 | Filtering twice is filtering once |
| Text.DigitsOnlyCount | users/serializers.py:39 | The filter drops something exactly when the input has a non-digit |
| Text.NatToStringInjective | users/views.py:1135 | Different counters print differently |
| Text.NatToStringReadsBack | users/views.py:1135 | The decimal text of a number reads back as that number |
| Text.Strip | users/serializers.py:80-81 | The result has no surrounding whitespace |
| Text.StripSkipsSpace | users/serializers.py:298-301 | Leading whitespace does not survive the strip |
| Text.Lower | messaging/views.py:48 | Lower-casing changes each character on its own and keeps the length |

## Left out

- HTTP calls to Chapa are left out. The replies to the initialisation and verification calls are parameters. Webhooks and their signatures are not part of this model.
- `verify_transfer` and `sync_banks` are referenced but their code is not part of this model. Their outcomes are parameters of the sweep and of `SyncChapaBanks`. `initiate_transfer` is an empty stub.
- The fields `money/models.py` lacks are left out. The service imports `PlatformConfig` and writes `category`, `recipient`, the related rows and the fee types, but the models file does not define them. The model follows the service's use of them.
- Decimal quantisation to two places is left out. Money is exact `real`, and no amount is rounded.
- Concurrency, row locking and `transaction.atomic` are left out. Each wallet operation is one atomic method.
- Database ordering and `updated_at` are left out. Conversations are kept in the order the lookup reads them.
- UUID generation is left out. References are parameters and must be fresh.
- Websockets and the channel layer are left out: consumers and routing.
- MessagingViews.MarkAsRead: the view calls `broadcast_messages_read` (messaging/views.py:146), which is neither defined nor imported, so as written every mark ends in a server error after the rows are updated. The model returns the response the view intends instead.
- MessagingViews.SendMessage: a message with a file and no content is saved and then raises on the notification text (messaging/views.py:88); the model uses the corrected NotificationText, and the as-written outcome is NotificationTextAsWritten.
- MessagingViews.ListedMessages: the order among messages with equal timestamps is the database's and is not modelled; only latest-first is (ListedLatestFirst).
- ListingsViews.VisibleListings: the pickup and destination filters by region id and by name (listings/views.py:139-156) are not modelled. ListingsViews.CompleteListing's lookup ignores them too, so a listing those filters would hide is found there.
- ListingsViews.PerformCreate: the event log row and the conversation lookup are not modelled, and the empty-request error is Django forms' `ValidationError`, which the framework does not turn into a 400; the model reports it as EmptyRequest.
- ListingsViews.Accept, ListingsViews.Reject and ListingsViews.Complete each also check that the actor owns the listing (for example listings/views.py:358-367). The lookup and the permission have already refused everyone else, so that check never refuses and the model leaves it out.
- MessagingSerializers.CreateConversation: the conversation created before the failed participant insert stays, as it does under autocommit; the database settings, which could roll it back, are not part of this model.
- UsersSerializers.RegistrationErrors and UsersSerializers.TelegramErrors do not check the email format, the username's allowed characters or its 150-character limit.
- Parsing of the `sender_id` query value is left out. It is taken as an optional user id.
- The owner permission class of messages is left out. `messaging/permissions.py` is not part of this model.
- MessagingViews.GuardedUpdate and MessagingViews.GuardedDestroy start from the message the lookup returned; the 404 that lookup gives for a message outside the user's conversations (messaging/views.py:125-127) is not modelled.
- ListingsSerializers.ValidateRequest models the corrected capacity rule (AvailableWeight), not the rule as written (see Findings).
- UsersSerializers.RegisterWithTelegram models the corrected behaviour: the account is stored without an email, where the insert as written fails (see Findings).
- ListingsViews.PerformCreate models the corrected behaviour past listings/views.py:223, where the code as written raises on the missing attribute (see Findings).
- `MessageAttachmentViewSet.perform_create` and the `NotificationViewSet` actions `mark_as_read` and `mark_all_as_read` are left out. Both are single-field updates with no rule beyond the serializer's.
- Cloudinary uploads are left out. An attachment records the name it is uploaded under, not a URL.
- Twilio, Gmail, Firebase, and Google/Apple token verification are left out. Google sign-in starts after the token has been checked.
- Password hashing is left out. A password is stored as the text it checks against, `None` for an unusable one.
- Unicode is not modelled. Digits, whitespace and letter case are ASCII only.
- Validation of the `purpose` choice field is left out. The purpose is already one of the three values.
- Log rotation is left out: the namer of `DailyJSONFileHandler` and the JSON formatter. Only the first file's name is modelled.
- ConfigUtils.FormatDate pads years below 1000 to four digits. How the platform's `%Y` prints such years is not modelled.
- Rating averages, reporting aggregations and the recalculation management command are left out. They use floating-point arithmetic.
- The JWT tokens and the user serializer output of a successful login or Google sign-in are left out. Only which account they are for is modelled.
- Password reset, resending codes, phone codes by SMS, logout and the rest of the account endpoints are not part of this model.
- WalletService.ReleasePaymentToTraveler and WalletService.RefundLockedAmount do not check that the lock covers the amount, because the service does not. Non-negativity is therefore proved only under that assumption (NonNegativityPreserved).
- ListingsSignals.SaveStatus: the wallet calls cannot fail in this model, so the hook's re-raise, which would stop the save, never happens.
- ChapaService.InitializeTransaction does not model the payload sent to the gateway or the callback URL.
- MessagingModels.MessagingStore.GetOrCreateConversation returns the `.first()` of the lookup. It does not model the database's ordering of ties.

Notes on the code as written. These are stated as lemmas; they are not treated as bugs.
- Google-created accounts hold an empty password. That counts as usable, so `set_password` refuses them, although no password matches it.
- The lookup for (u, u) in `get_or_create_conversation` matches u's two-person conversation with anyone (SelfLookupFindsPartner). A conversation created for (u, u) has one participant and is never found again (SelfConversationNeverFound).
- A "not successful" verification after a success marks the row FAILED. A later success credits the deposit again (DoubleCreditAfterFailure).
- Editing a request's price after its lock makes the release take more than was locked (RepricedReleaseOverdrawsLock).
- As intended, an empty request would be refused only after its fee and lock were taken (PerformCreate).

## Findings

| source | as written | input that shows it | evidently intended | confidence | as-written member | corrected member |
|---|---|---|---|---|---|---|
| listings/serializers.py:200-213 | The capacity check subtracts the accepted requests' weights from `maximum_weight_in_kg`, which accepting them already lowered | A listing of 10 kg with one accepted request of 6 kg: 4 kg are left, but a new request of 3 kg is refused | The stored capacity is what is left, so a request fits when its weight is at most that; ListingsSerializers.ValidateRequest applies this rule | high, not executed | ListingsSerializers.CapacityDoubleCounted | ListingsSerializers.AvailableWeightIsWhatIsLeft |
| messaging/views.py:88 | The notification text slices `message.content[:30]`, which is null for a message sent with a file and no content | `send_message` with one file and no content: the serializer accepts it, then the slice raises | A message without content is notified with an empty preview; MessagingViews.SendMessage uses this text | high, not executed | MessagingViews.FileOnlyMessageBreaksNotification | MessagingViews.NotificationText |
| listings/views.py:223 | `perform_create` reads `conversation.package_request`, a field the conversation model (messaging/models.py:7-16) does not have | Any request the wallet can pay for: it is saved, fee and lock are taken, then the attribute read raises | The request is linked to its conversation and the request message is sent | high, not executed | ListingsViews.PerformCreateAsWritten | ListingsViews.PerformCreate |
| users/serializers.py:399-405 | The Telegram registration stores `email=None` when no email is given, but the email column does not accept null (users/models.py:34) | A Telegram registration with a free username, a valid phone, matching passwords and no email: the form accepts it and the insert fails | The account is created without an email | high, not executed | UsersSerializers.TelegramWithoutEmailFails | UsersSerializers.RegisterWithTelegram |
