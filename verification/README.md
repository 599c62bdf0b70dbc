# A verified model of SRPanel's services

SRPanel is a panel for VPN resellers: it sells subscriptions through storefronts, takes
payments, keeps reseller and customer wallets, reads usage counters from remote panels, and
looks after its own backups, logs, domains and incidents. This project models the services
behind that in Dafny and proves what they keep; `dafny verify dfyconfig.toml` checks the whole
project.

The services are imperative, so each appears twice where that helps: as a class or method with
the source's branches and loops, proved equal to a function of the old state, and as that
function, about which the laws are proved over every input and every run. The public methods of
the payment desk also promise the invariant itself, so that any use of a desk keeps it. What a
step does is stated by the fields it reads, not by the service's own helpers.

| module | what it models |
|---|---|
| `Ledger`, `Payments`, `PaymentDesk`, `PaymentRuns`, `MoneyTheorems` | payments, orders and the two wallets: proofs, confirmations, gateway and plugin callbacks, expiry, the USDT worker, delivery, wallet purchases |
| `MoneyEffects`, `WalletEffects`, `Reviewers` | what one step makes of every payment, order and wallet, field by field, and who may decide on a payment |
| `MoneySteps`, `TopupCredits`, `Deliveries`, `Provisions`, `Lapses`, `Transfers`, `Hex` | when exactly a step confirms a payment or provisions an order, and from that: the amount credited, orders delivered and sellers charged once, money paid from a wallet, payments that stay lapsed, transfers used once |
| `ResellerPlans`, `Refunds`, `RefundLaws`, `WalletQuotes`, `QuoteLaws` | packages for resellers, refunds of deleted clients, the receipt before provisioning |
| `CardAmounts`, `CardDeposits`, `CardMatches`, `CardRuns`, `DepositRepeats` | card-to-card invoices: the slot search, the deposit matcher row by row, the deposit ring over runs, how long a deposit is remembered |
| `UsageSync`, `UsageDesk`, `UsageTotals`, `UsageRuns`, `UsageLaws` | panel counters folded into links and clients, growth across counter resets |
| `Radix`, `Base32`, `Base58`, `TronAddresses`, `LogCsv` | the codecs, each with a reader it is inverse to, and what an address text says byte by byte |
| `UnifiedLog`, `LogLevels`, `LogScope` | the merged log, its level filter, and which rows a query shows |
| `RateLimit`, `SettingsCache` | the sweeping request limiter and the settings cache, against their simple forms |
| `Backups`, `BackupLaws`, `StoreDomains`, `DomainLaws`, `Monitoring`, `IncidentLaws` | schedule and retention, shop hosts, incidents |

Every service call is one atomic step. Clocks, settings, generated ids and the answers of
networks, chains, gateways and panels are arguments, so a law over all arguments is a law over
all their behaviours; a call that throws keeps what it wrote before.

## What the code does that its description does not say

- A fulfilled order is not final: confirming a payment marks its order paid again and delivers
  again. `DeliveredOnceIff` says by the guards of each step which ones do that,
  `DeliveredOnceOverRuns` that a run delivers once exactly when it makes none of them, and
  `DeliveredTwice` is a run that does.
- A lapsed payment cannot be confirmed automatically, yet a failed gateway callback turns it
  into a rejected one, which can (`LapsedComesBack`). `StaysLapsedIff` says over whole runs which
  steps move a lapsed payment.
- Transaction ids are compared letter for letter, though upper and lower case hex digits are both
  accepted, so one transfer can confirm any two waiting payments (`OneTransferTwoPayments`). It names
  one payment exactly as long as nobody files a second spelling (`OneTransferOnePaymentIff`), and there
  is a second one exactly for ids that hold a letter (`OtherSpellingIff`).
- The request limiter is called sliding-window; its window starts at the first call and stands still. A
  span of the window's length can admit twice the maximum less one (`WorstSpan`), so it slides for
  no action of the service: only a limit of one call or a window of one millisecond would
  (`SlidesIff`, `NoActionSlides`). With both ends counted it is twice the maximum (`AtMostTwiceMax`).
  A span that starts within the bucket in force at its end keeps to the maximum (`SpanInBucket`).
- A merged-log page that ends beyond row 5000 may lack rows (`PageExactIff`). The level filter
  and the level shown differ for actions with no dot or several, and for webhook deliveries with
  an empty error text (`FilterIffRegular`, `PluginRejectionsDiffer`); a list of four or more levels
  that repeats one filters no audit rows (`FilterIffPlain`).
- Card top-ups share the deposit matcher with card orders but take the amount asked for: an order and a
  top-up of its price leave the exact deposit ambiguous (`TopUpCollides`). `RunApartIff` gives the exact
  condition, step by step, under which open invoices stay apart.
- The tolerance on card deposits makes no near amount safe: only an exact one is sure to find its
  invoice, but for prices within the tolerance of nothing (`OffByIff`). A reference number overrides
  the amount; `AmountRespectedIff` says when exactly, `ReferenceBeatsAmount` shows it for any two amounts.
- Repeats of a deposit are looked for among the last 40 accepted ones alone (`DroppedIff`); after 40
  others one deposit settles a second invoice of its amount (`SettlesTwice`). A different deposit of the
  same amount within two minutes counts as a repeat and settles nothing (`ExactDepositAfterRun`).
- An order whose provisioning fails after the charge stays paid, undelivered and charged to the seller
  (`DeliveryCharges`); handing it over again charges the seller again (`ChargedTwice`). A run charges a
  seller once per order exactly when no step provisions an order charged by then (`ChargedOnceOverRuns`).
- Once a payment from the wallet is confirmed no step refunds its order (a seller may still adjust the
  balance by hand), and the order is delivered as often as a step hands it over (`WalletOrderFate`); an
  order canceled before that is lost with its price, whatever happens later (`PaidForNothing`).
- Usage growth is taken against the link the panel reports under today; when that inbound moves
  the whole counter is recorded again (`GrowthIsTrueIff`, `MovedCountsTwice`).
- The receipt before provisioning is said to mirror the checks of the real call; it refuses a client
  without a traffic limit under a quota, the call does not (`CreateReceiptIff`,
  `UnlimitedSlipsThrough`), and renewals differ as `RenewReceiptIff` says (`FreeRenewalBlocked`,
  `ExpiredAddsDays`, `ShrinkBlocked`).

## Model

| member | source | states |
|---|---|---|
| Ledger.PostBalances | packages/core/src/services/wallet.ts:223-243 | a wallet move with its row keeps every balance equal to its opening plus its rows, each row showing the running balance |
| MoneyTheorems.StepKeeps | packages/core/src/services/payments.ts:158-368 | every call of the money services keeps the whole invariant: payments fit their orders and wallets, confirmed top-ups are settled once, books balance |
| MoneyTheorems.EmptyIsGood | packages/core/src/services/payments.ts:69-110 | empty tables satisfy the invariant whatever the wallets hold |
| MoneyTheorems.RunKeeps | packages/core/src/services/payments.ts:158-368 | the invariant holds after any run of calls by anyone in any order |
| MoneyTheorems.ConfirmedForever | packages/core/src/services/payments.ts:219-262 | over any run a confirmed payment stays confirmed with the same parties, amount and transaction id |
| MoneyEffects.PaymentEffect | packages/core/src/services/payments.ts:158-368 | every field of every payment after any step, told by the fields before it: which guards confirm, reject, hand to review, lapse or count a vain check, and that nothing else changes |
| MoneyEffects.OrderAfter | packages/core/src/services/fulfillment.ts:45-145 | every field of every order after any step: when it is marked paid, delivered, canceled, lapsed, and that nothing else changes it |
| WalletEffects.WalletsStay | packages/core/src/services/payments.ts:228-245 | wallets move by hand, at checkout, when a top-up is confirmed, or when an order is provisioned, and never otherwise |
| WalletEffects.PaidIn | packages/core/src/services/payments.ts:228-238 | whichever step confirms a top-up moves one wallet by the amount, with the bonus for a customer, and no other |
| WalletEffects.SettleCustomerIff | packages/core/src/services/customers.ts:297-309 | asked at any time, the settlement credits exactly a confirmed top-up of an existing customer that no row refers to yet |
| WalletEffects.AdjustIff | packages/core/src/services/customers.ts:342-379 | an adjustment goes through exactly for an owner or the customer's own seller, for some amount, and without overdrawing; else nothing changes |
| WalletEffects.TopUpOpens | packages/core/src/services/payments.ts:69-109 | a top-up adds exactly one row as the gateway answers, and changes nothing else |
| WalletEffects.NewOrder | packages/core/src/services/store.ts:256-322 | the order a checkout leaves: pending, canceled, paid or delivered, for the seller and the amount |
| WalletEffects.NewOrderPayment | packages/core/src/services/store.ts:256-358 | the payment a checkout leaves, in every field, and that no other changes |
| WalletEffects.NewOrderMoney | packages/core/src/services/store.ts:325-358 | the price leaves the wallet, and comes back exactly when the purchase broke and the credit worked |
| Reviewers.DecisionIff | packages/core/src/services/payments.ts:212-262 | a person's decision on an open payment succeeds exactly for an owner, or for the payment's own seller on an order or a customer's top-up; any other changes nothing |
| Reviewers.OwnTopupNeedsOwner | packages/core/src/services/payments.ts:212-262 | over any run in which only people who are no owners decide on it, a reseller's own top-up is neither confirmed nor rejected |
| Reviewers.ResellersCannotTopUpThemselves | packages/core/src/services/payments.ts:212-222 | after any such run the reseller's own confirmation is still refused |
| MoneyTheorems.ExactlyOneCredit | packages/core/src/services/payments.ts:228-245 | after any run a top-up has exactly one ledger row over both ledgers once confirmed and none before, in the right wallet; an order payment never has one |
| TopupCredits.CreditedAsConfirmed | packages/core/src/services/customers.ts:297-309 | over any run a customer's confirmed top-up is credited the amount plus the bonus of exactly the step that confirmed it |
| MoneyTheorems.BooksBalance | packages/core/src/services/customers.ts:262-286 | after any run every balance is its opening plus its rows and no customer balance is negative |
| Transfers.OneTextOnePayment | packages/core/src/services/payments.ts:165-169 | over any run two payments never carry the same transaction id, letter for letter |
| Transfers.DistinctIff | packages/core/src/services/payments.ts:164-172 | a step keeps payments on different transfers exactly when it does not file another spelling of an id in use |
| Transfers.OneTransferOnePaymentIff | packages/core/src/services/payments.ts:158-192 | along any run a transfer names at most one payment if and only if no step files a second spelling |
| Transfers.OtherSpellingIff | packages/core/src/services/payments.ts:165-166 | a well-formed id has a second spelling exactly when it holds a letter |
| Transfers.OneTransferTwoPayments | packages/core/src/services/payments.ts:165-169 | any two payments waiting for a transfer are both confirmed by any one whose id holds a letter, filed in two spellings |
| MoneySteps.ConfirmsIff | packages/core/src/services/payments.ts:158-368 | an open payment is confirmed by a step exactly when the guards of that step hold before it |
| MoneySteps.OthersUntouched | packages/core/src/services/payments.ts:158-368 | a step changes only the payment it names, or those a sweep or hand-over covers |
| MoneySteps.RunGrows | packages/core/src/services/wallet.ts:223-243 | over any run ledger rows are only added and a surplus delivery is never undone |
| MoneyTheorems.BatchIsRun | packages/core/src/services/payments.ts:347-368 | the USDT worker's batch is a run of single checks up to its first exception |
| MoneyTheorems.ConfirmCredits | packages/core/src/services/payments.ts:225-238 | confirming an open top-up writes one row with exactly the amount (and the bonus for a customer) into one wallet and touches no other payment, order or wallet |
| MoneyTheorems.ConfirmTwice | packages/core/src/services/payments.ts:219-223 | a second confirmation by anyone changes nothing |
| MoneyTheorems.WalletPurchase | packages/core/src/services/store.ts:325-358 | paying from the wallet ends confirmed with the price gone, or rejected and canceled with the balance restored unless the compensating credit itself fails |
| MoneyTheorems.DeliveryCharges | packages/core/src/services/fulfillment.ts:45-108 | a paid order is delivered exactly when the work succeeds and the seller can pay; the seller is charged exactly the cost, also when provisioning breaks after the charge, else nothing changes |
| Deliveries.DeliveredOnceIff | packages/core/src/services/payments.ts:239-243 | a step keeps every order delivered at most once exactly when its guards do not let it confirm an open payment of a fulfilled order |
| Deliveries.DeliveredOnceOverRuns | packages/core/src/services/fulfillment.ts:45-145 | a run delivers every fulfilled order once and no other order at all if and only if it makes no such step |
| Deliveries.DeliveredTwice | packages/core/src/services/payments.ts:239-243 | a run of five calls from an empty shop that delivers one order twice |
| Provisions.StepCounts | packages/core/src/services/fulfillment.ts:45-108 | a step charges an order's seller and delivers the order exactly when its guards hand it to provisioning and the seller can pay, and moves the seller's wallet by exactly that charge |
| Provisions.RunCounts | packages/core/src/services/fulfillment.ts:45-145 | after any run every order was charged and delivered exactly as often as such steps were made |
| Provisions.ChargedOnceOverRuns | packages/core/src/services/fulfillment.ts:45-145 | a run charges a seller at most once per order if and only if no step provisions an order charged by then |
| Provisions.ChargedTwice | packages/core/src/services/fulfillment.ts:122-133 | a retry after work that broke behind the charge takes the cost a second time for one order |
| Provisions.NeverPaidBack | packages/core/src/services/store.ts:325-358 | over any run nothing is paid for an existing order from a wallet and nothing comes back |
| Provisions.WalletOrderFate | packages/core/src/services/store.ts:325-358 | after a checkout paid from the wallet, whatever the run: the payment stays confirmed, the price stays gone, and the order was delivered exactly as often as a step handed it over |
| Provisions.PaidForNothing | packages/core/src/services/fulfillment.ts:135-145 | an order paid from the wallet, given up by provisioning and canceled, stays undelivered with its price gone over every later run |
| Lapses.LeavesLapsedIff | packages/core/src/services/payments.ts:222-331 | a step moves a lapsed payment exactly when an entitled reviewer decides on it or a gateway callback reports failure, and to which status |
| Lapses.StaysLapsedIff | packages/core/src/services/payments.ts:219-345 | over any run a lapsed payment is still lapsed at the end if and only if no such step was made |
| Lapses.LapsedComesBack | packages/core/src/services/payments.ts:318-331 | two gateway callbacks confirm a lapsed payment without a reviewer, though a direct automatic confirmation is refused |
| PaymentDesk.Desk.ChargeWallet | packages/core/src/services/wallet.ts:219-244 | the signed move on a reseller wallet with its credit limit, free for owners' purchases |
| PaymentDesk.Desk.CreditCustomer | packages/core/src/services/customers.ts:262-272 | credit of a positive amount with its row |
| PaymentDesk.Desk.DebitCustomer | packages/core/src/services/customers.ts:274-286 | debit that never overdraws |
| PaymentDesk.Desk.AdjustCustomer | packages/core/src/services/customers.ts:342-379 | manual adjustment by the owner or the customer's own seller, as a credit or a debit of the absolute amount |
| PaymentDesk.Desk.SettleCustomer | packages/core/src/services/customers.ts:297-309 | a confirmed customer top-up is credited with its bonus unless a row already settles it |
| PaymentDesk.Desk.Fulfill | packages/core/src/services/fulfillment.ts:45-108 | delivery of a paid order and every way it does not happen, a break after the charge among them |
| PaymentDesk.Desk.ConfirmPayment | packages/core/src/services/payments.ts:219-245 | confirmation with its refusals, the status change first and the settlement after it |
| PaymentDesk.Desk.RejectPayment | packages/core/src/services/payments.ts:247-262 | rejection by an entitled reviewer, never of a confirmed payment |
| PaymentDesk.Desk.SubmitProof | packages/core/src/services/payments.ts:158-192 | filing a transaction id or a receipt, with the immediate on-chain check |
| PaymentDesk.Desk.ZarinpalCallback | packages/core/src/services/payments.ts:306-331 | the gateway's return, canceled, mismatched, failed or verified |
| PaymentDesk.Desk.PluginCallback | packages/core/src/services/paymentPluginHooks.ts:91-129 | a signed plugin call rejects, sends to review or confirms |
| PaymentDesk.Desk.ExpirePayments | packages/core/src/services/payments.ts:334-345 | overdue payments lapse, and an order only when no payment still counts for it |
| PaymentDesk.Desk.VerifyOne | packages/core/src/services/payments.ts:352-365 | one on-chain check of a filed payment |
| PaymentDesk.Desk.VerifyPending | packages/core/src/services/payments.ts:347-368 | the worker's loop over its batch |
| PaymentDesk.Desk.RetryFulfill | packages/core/src/services/fulfillment.ts:122-133 | a manual hand-over marks a waiting order and its waiting payments paid |
| PaymentDesk.Desk.CancelOrder | packages/core/src/services/fulfillment.ts:135-145 | canceling rejects waiting payments and refuses fulfilled orders |
| PaymentDesk.Desk.BeginPayment | packages/core/src/services/payments.ts:69-109 | opening a payment, refused before or rejected after the row is written when the quote or the gateway fails |
| PaymentDesk.Desk.PayOrderWithWallet | packages/core/src/services/store.ts:325-358 | debit, confirm, and compensate when the confirmation fails |
| PaymentDesk.Desk.CreateOrder | packages/core/src/services/store.ts:256-322 | checkout: free orders delivered, wallet orders paid, others given a payment |
| ResellerPlans.Account.Quote | packages/core/src/services/resellerPlans.ts:162-180 | the receipt with its blockers, an owner's too |
| ResellerPlans.Account.Buy | packages/core/src/services/resellerPlans.ts:191-234 | a sale takes exactly the price and adds exactly what is advertised; a failed one leaves limits and balance alone unless the refund fails too |
| ResellerPlans.SoldPartsCount | packages/core/src/services/resellerPlans.ts:140-160 | without blockers every part of the package really extends the account |
| ResellerPlans.OfferedIff | packages/core/src/services/resellerPlans.ts:130-137 | a package is found exactly when sales are on and its first entry is offered to the actor; owners see all |
| ResellerPlans.NoBlockerIff | packages/core/src/services/resellerPlans.ts:140-149 | nothing blocks a package exactly when it and the account are active and each part has a limit to extend |
| ResellerPlans.QuoteThenBuy | packages/core/src/services/resellerPlans.ts:162-216 | no blocker on the receipt exactly when the purchase goes through |
| Refunds.AmountLimits | packages/core/src/services/refunds.ts:106-115 | a refund is at most the agreed share of the unused value and at most what is left of the charges; when nothing is refunded, why |
| Refunds.QuoteFalls | packages/core/src/services/refunds.ts:86-115 | with the same ledger a quote never grows as traffic is used and time passes |
| Refunds.UnusedIsReturned | packages/core/src/services/refunds.ts:86-115 | an unused client bought at the unit prices is worth its whole price |
| RefundLaws.RefundIsLargest | packages/core/src/services/refunds.ts:86-115 | a refund is the largest amount within the share and the charges left, unless that is below the minimum |
| RefundLaws.NothingIsRefunded | packages/core/src/services/refunds.ts:57-104 | nothing for owners, with refunds off, where nothing is charged, or with no charges left |
| RefundLaws.UnusedIsLargest | packages/core/src/services/refunds.ts:86-100 | the unused traffic is the largest number of whole gigabytes that is left |
| RefundLaws.DaysAreFewest | packages/core/src/services/refunds.ts:86-100 | the remaining time is the fewest whole days that reach its end |
| RefundLaws.DeletionIff | packages/core/src/services/refunds.ts:129-162 | a deletion that throws changes nothing; one that works removes the client and credits the quote, or nothing when the credit fails |
| Refunds.StepKeepsCover | packages/core/src/services/refunds.ts:129-162 | every step keeps refunds within charges for every reseller and client |
| Refunds.NeverOverRefunded | packages/core/src/services/refunds.ts:129-162 | over any run of purchases, deletions and edits no reseller gets back more for a client than it was charged |
| Refunds.BuyThenDelete | packages/core/src/services/refunds.ts:57-162 | bought and deleted at once the wallet is back where it was |
| Refunds.RefundDesk.QuoteRefund | packages/core/src/services/refunds.ts:57-116 | the loop over the ledger and the guards compute the quote |
| Refunds.RefundDesk.DeleteClientWithRefund | packages/core/src/services/refunds.ts:129-162 | quote first, delete, then credit; a failed deletion or credit moves no money |
| WalletQuotes.CreateReceiptIff | packages/core/src/services/wallet.ts:141-184 | a receipt for a new client is clean exactly when the call passes its checks and the client has a limit where there is a quota |
| QuoteLaws.ReceiptSays | packages/core/src/services/wallet.ts:141-184 | every number and every blocker of a receipt, told by the account, its clients and the prices |
| QuoteLaws.CreateIff | packages/core/src/services/clients/access.ts:23-44 | a new client is let in exactly when account, count, quota and wallet allow it |
| QuoteLaws.RenewIff | packages/core/src/services/clients/crud.ts:103-132 | a renewal is let in exactly when a new size fits beside the other clients and a charged part can be paid |
| WalletQuotes.UnlimitedSlipsThrough | packages/core/src/services/clients/access.ts:31-38 | the call accepts a client without a limit from a reseller whose quota is used up, the receipt does not |
| WalletQuotes.RenewReceiptIff | packages/core/src/services/clients/crud.ts:96-133 | when exactly the receipt and the call agree for a renewal that grows, shrinks or keeps the client's traffic |
| WalletQuotes.FreeRenewalBlocked | packages/core/src/services/clients/crud.ts:126-132 | days that are not charged are blocked on the receipt by a balance too low to pay for them |
| WalletQuotes.ExpiredAddsDays | packages/core/src/services/clients/crud.ts:103-115 | an expired account may add days to a client, its receipt is blocked |
| WalletQuotes.ShrinkBlocked | packages/core/src/services/wallet.ts:156-165 | an account over its quota may shrink a client until it fits, its receipt is blocked |
| WalletQuotes.ReceiptIsCharged | packages/core/src/services/wallet.ts:219-244 | after the checks the charge succeeds and ends at the balance the receipt shows |
| CardAmounts.UniqueCardAmount | packages/core/src/services/cardAuto.ts:362-381 | the loop finds the first free candidate or falls back to the price |
| CardAmounts.AmountIsFirstFree | packages/core/src/services/cardAuto.ts:375-379 | whenever some slot is free the result is the first free one |
| CardAmounts.FreeCount | packages/core/src/services/cardAuto.ts:374-379 | each taken amount blocks at most two candidates, one without tolerance |
| CardAmounts.SearchSucceeds | packages/core/src/services/cardAuto.ts:374-380 | while slots outnumber what can be blocked the search cannot fail |
| CardAmounts.ZeroToleranceSucceeds | packages/core/src/services/cardAuto.ts:368-380 | without tolerance the 500 rows of the query never exhaust the slots |
| CardAmounts.FoundAmount | packages/core/src/services/cardAuto.ts:357-380 | a found amount is within 999 of the price and clear of every taken amount |
| CardDeposits.AppendIff | packages/core/src/services/cardAuto.ts:239-247 | a new open invoice keeps the live ones further apart than the tolerance exactly when no live amount is within it |
| CardDeposits.ReopenIff | packages/core/src/services/payments.ts:181-190 | reopening a closed invoice keeps them apart exactly when no live amount is within the tolerance |
| CardDeposits.ExactDepositIff | packages/core/src/services/cardAuto.ts:236-271 | among separated invoices an exact deposit settles its invoice and no other exactly when the invoice is among the newest 200 |
| CardMatches.MatchIff | packages/core/src/services/cardAuto.ts:236-271 | a deposit is settled exactly when one seen row is meant, ambiguous when several are, unmatched when none is; a lone reference goes before the amount, the card's last four digits narrow several near rows |
| CardMatches.CardDecides | packages/core/src/services/cardAuto.ts:252-256 | with several near rows and the card asked for, an invoice is settled exactly when it alone names the deposit's card; when none does, nothing is settled |
| CardMatches.UnconfirmedIff | packages/core/src/services/cardAuto.ts:259-270 | without automatic confirmation, or when it fails, the meant invoice is named and not matched |
| CardMatches.SeenIff | packages/core/src/services/cardAuto.ts:238-244 | a row is compared exactly when it is open, in time, and fewer than 200 such ones are newer |
| CardDeposits.OffByIff | packages/core/src/services/cardAuto.ts:246-257 | for every price, tolerance and deposit: it is sure to settle an invoice of the price, whatever the other separated ones are, exactly when it is of that amount or the price is cheap and short |
| CardDeposits.NearbyInvoice | packages/core/src/services/cardAuto.ts:246-257 | for every other deposit within the tolerance, separated invoices that make it ambiguous |
| CardDeposits.MatchedIsLive | packages/core/src/services/cardAuto.ts:238-258 | whatever was settled is a live invoice of the seller |
| CardDeposits.AmountRespectedIff | packages/core/src/services/cardAuto.ts:246-258 | a settled invoice is within the tolerance exactly unless one single row carries the reference and is out of it |
| CardDeposits.ReferenceBeatsAmount | packages/core/src/services/cardAuto.ts:247-251 | a lone matching reference settles its invoice for any two amounts further apart than the tolerance |
| CardRuns.RunKeepsRing | packages/core/src/services/cardAuto.ts:298-356 | over any run the ring holds at most 40 different deposits, every matched one names a settled invoice and no two the same |
| CardRuns.StepApartIff | packages/core/src/services/store.ts:264-269 | orders, top-ups and filed receipts keep the live invoices apart exactly when a slot is free or no live amount is near; every other step does |
| CardRuns.FewIsOrderly | packages/core/src/services/cardAuto.ts:362-381 | while slots outnumber what the live invoices can block, placing an order keeps them apart |
| CardRuns.RunApartIff | packages/core/src/services/cardAuto.ts:236-381 | along any run of orders, top-ups, receipts, decisions and deposits the live invoices stay apart if and only if every step meets that condition |
| CardRuns.TopUpCollides | packages/core/src/services/storeCustomerPay.ts:30-41 | an order and a top-up of its price: the exact deposit settles neither |
| CardRuns.ExactDepositAfterRun | packages/core/src/services/cardAuto.ts:236-324 | at the end of such a run an exact deposit without a reference settles its invoice and no other exactly when the ring holds nothing it repeats and the invoice is among the newest 200 |
| DepositRepeats.RingIsNewest | packages/core/src/services/cardAuto.ts:298-322 | after any run the ring holds the newest 40 accepted deposits |
| DepositRepeats.DroppedIff | packages/core/src/services/cardAuto.ts:316-322 | over any run a deposit changes nothing exactly when it is of no amount or one of the newest 40 accepted ones repeats it |
| DepositRepeats.RepeatsIff | packages/core/src/services/cardAuto.ts:294-317 | what a repeat is: the same reference digits, or the same amount and text, or the same amount within two minutes |
| DepositRepeats.RetriedAre | packages/core/src/services/cardAuto.ts:341-356 | the newest 15 waiting deposits are matched again |
| DepositRepeats.RepeatSettlesNothing | packages/core/src/services/cardAuto.ts:316-322 | once a deposit was accepted its repeats settle nothing while fewer than 40 further ones were accepted |
| DepositRepeats.SettlesTwice | packages/core/src/services/cardAuto.ts:316-322 | a run in which one deposit, offered again after 40 others, settles a second invoice |
| CardRuns.CardDesk.Match | packages/core/src/services/cardAuto.ts:236-271 | the narrowing of candidates and the confirmation compute the match |
| CardRuns.CardDesk.Ingest | packages/core/src/services/cardAuto.ts:298-324 | duplicates are dropped, others matched and put in front of the ring |
| CardRuns.CardDesk.Rematch | packages/core/src/services/cardAuto.ts:341-356 | up to 15 open deposits are matched again and written over their own entries |
| CardRuns.CardDesk.PlaceInvoice | packages/core/src/services/store.ts:264-269 | a card order takes the found amount when it is above the price |
| UsageSync.LargestIsKept | packages/core/src/services/servers.ts:230-236 | for every email the reported row with the largest total is kept |
| UsageLaws.FirstLargestIsKept | packages/core/src/services/servers.ts:230-236 | of equal largest rows the first reported one is kept |
| UsageSync.Primary | packages/core/src/services/servers.ts:253-262 | the link under the reported inbound, else the one of the lowest inbound |
| UsageDesk.CollectGroups | packages/core/src/services/servers.ts:244-251 | links grouped by client and email in the order they are met |
| UsageDesk.Accounts.ApplyClientStats | packages/core/src/services/servers.ts:226-286 | the whole sync of one server: links, usage rows and clients |
| UsageDesk.Accounts.RecomputeClient | packages/core/src/services/servers.ts:289-302 | usage summed over the links and the status label that follows |
| UsageTotals.GroupHoldsCounter | packages/core/src/services/servers.ts:261-279 | after a sync a reported remote client's counter is on exactly one of its links, the others hold zero |
| UsageTotals.UsageCountedOnce | packages/core/src/services/servers.ts:226-302 | a client's usage is the sum of its reported counters, each once, plus what its unreported links held |
| UsageTotals.SyncKeepsAggregates | packages/core/src/services/servers.ts:286-302 | every client's stored usage equals the sum over its links after any sync |
| UsageTotals.RowsAddUp | packages/core/src/services/servers.ts:265-283 | the usage rows written add up to the growth of the client's remote clients |
| UsageLaws.LinkAfterSync | packages/core/src/services/servers.ts:240-285 | other servers' links stay, an unreported one is marked missing with its counters kept, a reported one takes the panel's switch |
| UsageLaws.RowsAreFull | packages/core/src/services/servers.ts:261-270 | no empty usage row is written |
| UsageLaws.ClientStays | packages/core/src/services/servers.ts:240-286 | a client with no reported link on the server is left alone |
| UsageRuns.GrowthInvariant | packages/core/src/services/servers.ts:262-272 | how stored counter, true counter and unrecorded traffic relate along a run with resets |
| UsageRuns.GrowthAtMostCarried | packages/core/src/services/servers.ts:262-283 | recorded growth never exceeds carried traffic, whatever resets occur, and telescopes without resets |
| UsageRuns.ReportRecords | packages/core/src/services/servers.ts:264-268 | a report below the stored counter records the whole counter, any other what it grew by |
| UsageRuns.GrowthIsExact | packages/core/src/services/servers.ts:262-268 | after any run the traffic carried is exactly what was recorded, what waits for a report, and what resets hid |
| UsageRuns.AllRecordedIff | packages/core/src/services/servers.ts:262-268 | everything carried is recorded exactly when nothing waits and no reset hid anything |
| UsageRuns.GrowthIsTrueIff | packages/core/src/services/servers.ts:262-268 | the growth between two reports is true exactly when both are taken on the same link or the first counter was zero |
| UsageRuns.MovedCountsTwice | packages/core/src/services/servers.ts:261-268 | a remote client that moves to another inbound is counted twice |
| Base32.Encode | packages/core/src/security/totp.ts:5-14 | the masked accumulator loop computes the radix-32 digits of the padded bits |
| Base32.Decode | packages/core/src/security/totp.ts:16-26 | the masked loop computes the whole bytes of the letters' bits |
| Base32.BitOperations | packages/core/src/security/totp.ts:8-24 | the 32-bit shifts by constants and the masks are the arithmetic used in the loops |
| Base32.VariableShifts | packages/core/src/security/totp.ts:10-23 | so are the shifts by the number of bits left, for every number the loops can hold |
| Base32.ShiftIn | packages/core/src/security/totp.ts:9-23 | the 16-bit mask never drops a bit still to be written |
| Base32.RoundTrip | packages/core/src/security/totp.ts:5-26 | decoding an encoding gives the bytes back |
| Base32.EncodedShape | packages/core/src/security/totp.ts:5-14 | the encoding has ceil(8n/5) letters of the alphabet of section 6 of RFC 4648 and no padding |
| Base32.DressingIgnored | packages/core/src/security/totp.ts:16-20 | case, trailing padding and foreign characters do not change what is decoded |
| Base32.ForeignIgnored | packages/core/src/security/totp.ts:17 | a character that is no letter and none of the digits 2 to 7 is skipped wherever it stands |
| Base32.CaseIgnored | packages/core/src/security/totp.ts:17 | texts that differ in case alone decode to the same bytes |
| Base32.CanonicalIff | packages/core/src/security/totp.ts:16-26 | a text survives decoding and encoding exactly when it has no idle letter and its spare bits are zero |
| Base58.Encode | packages/core/src/services/tron.ts:8-22 | the division loop and the leading ones compute the encoding |
| Base58.RoundTrip | packages/core/src/services/tron.ts:8-22 | an independent reader recovers the bytes, leading zeros included |
| Base58.Injective | packages/core/src/services/tron.ts:8-22 | two byte sequences have the same text exactly when they are equal |
| Base58.VersionByteGivesT | packages/core/src/services/tron.ts:24-33 | 25 bytes led by 0x41 give 34 characters starting with T |
| Base58.TronHexToBase58 | packages/core/src/services/tron.ts:25-33 | prefix handling, length check and checksum |
| Base58.AddressShape | packages/core/src/services/tron.ts:25-33 | every hex address gives 34 characters starting with T |
| TronAddresses.AddressSays | packages/core/src/services/tron.ts:25-33 | however an account is written, its text is read back as 0x41, the account's 20 bytes by their hex digits, and the first four bytes of the double hash |
| TronAddresses.TextSays | packages/core/src/services/tron.ts:25-33 | the same for any 42 digits, with the value of every byte |
| TronAddresses.BadDigitCuts | packages/core/src/services/tron.ts:29-32 | a 42-character text is cut at its first pair that is no pair of digits, and the checksum is of what is left |
| TronAddresses.AlphabetIs | packages/core/src/services/tron.ts:6 | the 58 letters in order, without 0, O, I and l |
| Base58.SameTextIff | packages/core/src/services/tron.ts:25-33 | two hex addresses give the same text exactly when they name the same account |
| LogCsv.RoundTrip | packages/core/src/services/logs.ts:356-363 | a reader following section 2 of RFC 4180 recovers the header and every field of every row |
| LogCsv.SameFileIff | packages/core/src/services/logs.ts:356-363 | two logs print the same file exactly when they agree field by field, an absent one counting as empty |
| UnifiedLog.StableSortIsUnique | packages/core/src/services/logs.ts:348 | the stable order of the log has one possible result, whatever algorithm sorts |
| UnifiedLog.SortIsMerge | packages/core/src/services/logs.ts:347-348 | sorting the joined tables is merging them |
| UnifiedLog.FetchEnough | packages/core/src/services/logs.ts:346-348 | the first w rows of the log need only the first w rows of each table |
| UnifiedLog.PageExact | packages/core/src/services/logs.ts:327-353 | inside the window a page is its part of the whole sorted log |
| UnifiedLog.PageExactIff | packages/core/src/services/logs.ts:346-349 | pages are right for every content of the tables exactly when they end at row 5000 or before |
| UnifiedLog.PagesCover | packages/core/src/services/logs.ts:327-353 | reading page after page loses no row and repeats none |
| UnifiedLog.TotalIsWholeLog | packages/core/src/services/logs.ts:341-352 | the total is the size of the whole log, which holds every matching row once |
| UnifiedLog.PageIsSlice | packages/core/src/services/logs.ts:327-353 | the same for a query with its clamped bounds |
| LogScope.ShownIff | packages/core/src/services/logs.ts:85-89 | an entry is in the log exactly when it is a row of a wanted table that can show an asked level and, in one admin's log, is not system-wide |
| LogScope.OnPageIff | packages/core/src/services/logs.ts:327-353 | where the log fits the window its pages show exactly these entries |
| LogScope.FacetsIff | packages/core/src/services/logs.ts:341-343 | a facet counts its table, wanted or not, and is zero for a source that takes no part |
| LogScope.PageLength | packages/core/src/services/logs.ts:327-353 | a page holds the asked number of entries, 200 by default, as far as the log goes |
| LogScope.SourceLevelsExact | packages/core/src/services/logs.ts:75-81 | the levels listed for a source are exactly those its rows can show |
| LogLevels.RegularPasses | packages/core/src/services/logs.ts:64-189 | a regular row is selected exactly when its shown level is asked for |
| LogLevels.ShownLevels | packages/core/src/services/logs.ts:64-200 | the level shown beside an audit row by the verb after its first dot, and beside a delivery by its error and status |
| LogLevels.FilterIffRegular | packages/core/src/services/logs.ts:64-199 | exactly the regular rows are filtered by the level they show |
| LogLevels.SecondDot | packages/core/src/services/logs.ts:64-124 | an action with a second dot before a listed verb is shown as information and filtered by its verb |
| LogLevels.PluginRejectionsDiffer | packages/core/src/services/paymentPluginHooks.ts:110 | a plugin's rejection is such an action: shown as information, found under the errors only |
| LogLevels.FilterIffPlain | packages/core/src/services/logs.ts:117-124 | level lists select by level exactly when they are shorter than four or complete |
| RateLimit.StoreRateLimit.Check | backend/src/premium-modules/store/store-rate-limit.service.ts:29-46 | the bucket step and the sweep past 10000 buckets |
| RateLimit.StoreRateLimit.Cleanup | backend/src/premium-modules/store/store-rate-limit.service.ts:48-52 | the sweep removes exactly the buckets that are over |
| RateLimit.BucketsAfter | backend/src/premium-modules/store/store-rate-limit.service.ts:33-52 | a call leaves other buckets alone, except that opening the 10001st or a later one drops those that are over |
| RateLimit.BucketOfCall | backend/src/premium-modules/store/store-rate-limit.service.ts:33-45 | the called bucket counts up while it is open and starts a whole window otherwise; when the call is let through |
| RateLimit.SweepingIsInvisible | backend/src/premium-modules/store/store-rate-limit.service.ts:29-52 | with a forward clock the sweeping limiter answers every call like one that never sweeps |
| RateLimit.BucketBounds | backend/src/premium-modules/store/store-rate-limit.service.ts:33-40 | a bucket admits at most the maximum, and how many calls before it can count |
| RateLimit.SpanInBucket | backend/src/premium-modules/store/store-rate-limit.service.ts:33-45 | any span that starts no earlier than the bucket in force at its end admits at most the maximum |
| RateLimit.WindowBound | backend/src/premium-modules/store/store-rate-limit.service.ts:33-45 | any closed span of one window's length admits at most twice the maximum |
| RateLimit.AtMostTwiceMax | backend/src/premium-modules/store/store-rate-limit.service.ts:29-52 | the same for every colon-free action and every key in any run of the whole limiter |
| RateLimit.EdgeBurst | backend/src/premium-modules/store/store-rate-limit.service.ts:33-45 | within a millisecond across the edge of a window twice the maximum less one are admitted |
| RateLimit.WorstSpan | backend/src/premium-modules/store/store-rate-limit.service.ts:33-45 | a span of windowMs milliseconds admits at most 2*max - 1 calls, max when it is a single millisecond, and no smaller bound holds |
| RateLimit.SlidesIff | backend/src/premium-modules/store/store-rate-limit.service.ts:20-45 | no span of windowMs milliseconds of any run admits more than the maximum exactly when the maximum or the window is 1 |
| RateLimit.NoActionSlides | backend/src/premium-modules/store/store-rate-limit.service.ts:8-45 | so for no action of the service |
| RateLimit.IdsDiffer | backend/src/premium-modules/store/store-rate-limit.service.ts:32 | colon-free actions never share a bucket |
| SettingsCache.Settings.GetSetting | packages/core/src/services/settings.ts:79-87 | while one process writes, a cached read equals parsing the table at any time and ttl |
| SettingsCache.Settings.SetSetting | packages/core/src/services/settings.ts:89-94 | a refused input changes nothing, any other is what every later read gives |
| SettingsCache.StepKeepsGood | packages/core/src/services/settings.ts:79-94 | every cached entry was the table's value at the moment it is dated, no older than the process's own last write |
| SettingsCache.ReadIsRecent | packages/core/src/services/settings.ts:79-94 | with any processes writing, a read is the table's value now or less than ttl ago and never older than the reader's own last write |
| SettingsCache.StaleUntilTtl | packages/core/src/services/settings.ts:80-81 | another process's write can stay unseen for the whole ttl |
| Backups.BackupTimes | packages/core/src/services/backup.ts:356-359 | every chosen hour once, in order |
| Backups.NextRunAt | packages/core/src/services/backup.ts:361-374 | the least scheduled instant after the given one, none only when switched off or without a valid hour |
| BackupLaws.ScheduledIff | packages/core/src/services/backup.ts:356-374 | the scheduled instants are a quarter past each chosen hour of the day |
| Backups.Survivors | packages/core/src/services/backup.ts:236-249 | exactly which backups survive |
| BackupLaws.KeptIff | packages/core/src/services/backup.ts:236-249 | which backups stay, told by how many are newer, by their age, protection and failed deletions |
| Backups.NewestAndProtectedStay | packages/core/src/services/backup.ts:236-249 | the newest finished backup and every protected one are kept |
| Backups.AtMostKeepLast | packages/core/src/services/backup.ts:243-247 | at most keepLast finished backups stay besides the protected ones |
| Backups.Idempotent | packages/core/src/services/backup.ts:236-249 | run again at the same instant the retention removes nothing more |
| Backups.BackupTable.ApplyRetention | packages/core/src/services/backup.ts:236-249 | the loop over the ranked backups deletes exactly those |
| StoreDomains.StepKeepsGood | packages/core/src/services/storeDomains.ts:126-202 | every step keeps hosts exclusive and live hosts verified |
| StoreDomains.HostsAreExclusive | packages/core/src/services/storeDomains.ts:132-165 | after any run no two admins hold the same host, requested or live, and none the panel's |
| StoreDomains.LiveWasProved | packages/core/src/services/storeDomains.ts:182-202 | no shop is live on a host that did not answer with the token its admin was given for it |
| StoreDomains.OneShopPerHost | packages/core/src/services/store.ts:119-126 | a host resolves to at most one shop |
| StoreDomains.PointedHostVerifies | packages/core/src/services/storeDomains.ts:94-100 | a host that points at the panel is answered with its own admin's token, so verifying it succeeds |
| StoreDomains.ShopMoves | packages/core/src/services/storeDomains.ts:126-202 | what each step does to the shop's host, and that it leaves other shops alone |
| DomainLaws.SetIff | packages/core/src/services/storeDomains.ts:132-155 | a host is taken exactly when it is usable, not the panel's, and neither requested by nor live for another admin; a new one starts unproved and takes the shop down |
| DomainLaws.VerifyIff | packages/core/src/services/storeDomains.ts:182-202 | a host is proved exactly when one of the two probes answers with the admin's own token |
| DomainLaws.LiveWasAnswered | packages/core/src/services/storeDomains.ts:168-202 | over any run no shop is live without a probe that answered with its present token |
| StoreDomains.DomainDesk.TokenForHost | packages/core/src/services/storeDomains.ts:94-100 | the walk over the book finds a token exactly when the host is requested |
| StoreDomains.DomainDesk.GetStoreByHost | packages/core/src/services/store.ts:119-126 | the lookup returns the one enabled shop of an active admin that is live on the host |
| StoreDomains.DomainDesk.SetStoreDomain | packages/core/src/services/storeDomains.ts:132-155 | the checks, the record kept or replaced, and the shop taken down for another host |
| StoreDomains.DomainDesk.RemoveStoreDomain | packages/core/src/services/storeDomains.ts:157-166 | record and live host are gone |
| StoreDomains.DomainDesk.VerifyStoreDomain | packages/core/src/services/storeDomains.ts:182-202 | probes in order until one passes; only then the shop moves |
| Monitoring.CheckedCounts | packages/core/src/services/monitoring.ts:49-93 | the open incidents of a server after its checks, kind by kind |
| Monitoring.OthersStay | packages/core/src/services/monitoring.ts:49-93 | the checks of a server leave every other server's incidents alone |
| Monitoring.RunIsGood | packages/core/src/services/monitoring.ts:45-103 | over any run of rounds and manual closes at most one incident per kind and server is open, and never both OFFLINE and AUTH_ERROR |
| Monitoring.RoundTellsTheTruth | packages/core/src/services/monitoring.ts:54-81 | after a round an online check leaves neither open and enough failures leave exactly one |
| IncidentLaws.RoundIff | packages/core/src/services/monitoring.ts:45-96 | which incidents of a checked server are open after a round of any reachable state, told by the checks themselves: failures in a row, the service's state, three busy checks, a quiet one |
| IncidentLaws.NotChecked | packages/core/src/services/monitoring.ts:49-53 | an inactive or unchecked server keeps its incidents |
| Monitoring.HighCpuClosesIff | packages/core/src/services/monitoring.ts:83-92 | an open HIGH_CPU closes exactly when the latest check is online and below the lower mark |
| Monitoring.Monitor.EvaluateIncidents | packages/core/src/services/monitoring.ts:45-96 | the round over all servers; opened less resolved is the change in open incidents |
| Monitoring.Monitor.CheckServer | packages/core/src/services/monitoring.ts:49-93 | one server's branches in order |
| Monitoring.Monitor.ResolveIncidentManually | packages/core/src/services/monitoring.ts:98-103 | only an open incident is closed, an unknown one is refused |

## Left out

- Interleaving inside one call and database isolation: every service call is one atomic step.
- Networks and processes: panels, chains, gateways, Telegram, mail, pg_dump and probes are arguments.
- Cryptography: SHA-256 is an arbitrary function with 32-byte results; HMAC checks, TOTP codes and random tokens are not modelled.
- Notifications, audit rows, webhooks, messages, plugin counters and delivery warnings.
- JavaScript floating point: coin amounts, rounding of deposits and counters, and fractional gigabytes; counters and prices are integers, CPU load is a real number.
- The accounts that exist are fixed during a run of the money machine; signing up, blocking and deleting customers are not steps.
- PaymentDesk.Desk.CreateOrder: starts from the final price and from whether the method is enabled; discounts, plan lookups, store switches and the card amount search come before it, and CardRuns models that search.
- The plugin's own lookup, signature and body parsing come before the modelled callback.
- The query that picks the USDT worker's batch (age, order, at most 20) is any batch of rows, as seen when it was read.
- Card matching: SMS parsing and bank bridges; a deposit is modelled once its fields are cut to length. A payment is open, settled, rejected or lapsed there; the money behind it is the payment machine's.
- Database ties: rows of equal time keep the table's order, and inbounds of one client on one server differ, as the schema demands.
- Log filters by text, date and admin: each table is given as its matching rows. SQL `LIKE` treats `_` in verbs as itself here.
- A settings row that holds JSON null, which counts as an empty value.
- Time zones and daylight saving: backup days are 24 hours long. `backupDueNow`, `cleanupBackups` and `reindexBackups`.
- Host and domain text rules: hosts arrive normalised. The settings cache in front of the domain book.
- Character case beyond ASCII in Base32 and hex texts.
- Client kinds, server access and panel work in `createClient` and `updateClient`; only the quota and the wallet checks are compared with the receipt.
- MoneyTheorems.ExactlyOneCredit: states that a customer's row is at least the amount; TopupCredits.CreditedAsConfirmed states the exact amount with its bonus.
- WalletQuotes.RenewReceiptIff: takes whole gigabytes; the source rounds a client's size to two digits.
- Base32.VariableShifts: speaks of 32-bit words; that words without overflow behave like the numbers of the loops is arithmetic of Dafny's own bit-vectors.
- Backups.AtMostKeepLast: assumes that no deletion fails; a failed one leaves its row, as Survivors says.
- Backups.Idempotent: assumes the same, for a row that could not be deleted is tried again.
- RateLimit.SpanInBucket: is one way, for one bucket; SlidesIff and WorstSpan say exactly what spans of a window's length admit.
- Monitoring.Monitor.EvaluateIncidents: reads the open incidents per server where the source loads them all before the loop, which is the same for distinct servers.
