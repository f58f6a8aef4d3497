# A verified model of the reseller bot's money and stock

The repository runs Telegram bots for resellers of internet packages and charge codes. Its services share
one MySQL database: a commission wallet per reseller, a prepaid wallet per customer, a shelf of charge codes
per product, the order lifecycle with receipts, disputes and a shared blacklist, a two-level catalog, backup
and restore, and a migration runner. This project models these services in Dafny and proves what they keep
over every run, in every interleaving of their transactions.

## How the model is built

- **Tables.** `Schema.Db` is the state of the tables the settlement code touches. Money is in whole cents;
  an exact commission is an integer number of ten-thousandths of a cent (`Money`).
- **One call at a time.** `Settlement.Spec(db, call)` is what one committed call leaves, or `None` when it is
  refused or rolls back. `Settlement.Replay` runs calls one after another.
- **Interleaved.** `Machine` runs the same calls statement by statement. A transaction keeps its writes to
  itself until it commits, holds each row lock until then, waits for rows others hold, and may die or abort
  anywhere. `Serial` proves that every interleaved run ends where the committed calls end when replayed in
  commit order. `CodeSales`, `CommissionWallet`, `CustomerWallet`, `Submissions` and `Bounds` prove their
  invariants on calls and carry them over to all interleavings. `Races` holds concrete interleaved runs, `Runs`
  proves that every accepted sequence of calls is a run and that transactions on different rows overlap, and
  `Fresh` that the theorems apply from a fresh installation on.
- **Sequential.** `Disputes` and `Refunds` are about runs of whole calls, `DiscountRaces` about discount
  applications whose four statements interleave.
- **The code itself.** `ChargeService`, `WalletService`, `OrderService`, `CustomerWalletService`,
  `DisputeService`, the delete methods of `Catalog`, `DiscountService`, `Migrator.Runner` and `BackupService`
  are the service functions as imperative methods on a connection (`Sessions.Session`, `BackupService.Store`),
  each proved against the specification function that the theorems are about. The service methods on a `Session`
  also say, row by row and without those functions, when they go through and what they leave; for catalog
  deletes, restore and migrations lemmas beside the specification say it.

Assumptions the source does not state, and the model makes:

- A `DECIMAL(14,2)` column rounds half away from zero. Python's `quantize` rounds half to even.
- A discount's arithmetic stays within the 28 digits of Python's decimal context, so only `quantize` rounds.
- Prices, percents, credit limits and top-up amounts are not negative (`Call.Valid`). The input handlers do
  not check all of this.
- Order codes, ledger row ids, top-up ids and dispute ids are parameters. Keys that are already taken make
  the insert fail, so two batches with the same order code end in a rollback, as the UNIQUE key has it.
- A price or a test-mode flag that a service reads before it opens its transaction is a parameter of the
  call, so it may be stale when the transaction runs.
- The model takes fewer locks than InnoDB (no gap locks, no locks on the parent rows of resellers and
  customers); fewer locks admit more interleavings.
- `Matches` says that a discount is not applied to an order that was paid from the wallet: the handler offers
  it only in the dialogue of an unpaid order.
- `Submissions.BegunAwaiting` says that a submission begins while its order awaits payment. The services do
  not check it. The handler supplies it for submissions one after another; it clears the dialogue only after
  `submit_receipt` returns, so several photos can be in flight together, and the theorems that use it count
  them. A photo handled after another submission has committed and before the dialogue is cleared is outside
  it; `Submissions.DeductionsArePasses` needs no such assumption.

## What the proofs found

- **Test mode ends one order early.** The repository's README promises N free orders. MySQL assigns from
  left to right, so the `CASE` sees the counter already incremented; for a limit of two or more the mode ends
  after N - 1 (`Bounds.TestModeLastsExactlyWhen`). The model follows the code.
- **Two confirmations can credit one customer top-up twice.** `confirm_topup` of the customer wallet checks
  `pending` before its transaction. `CustomerWallet.ConservedUnlessRepeated` is the exact condition,
  `Races.RaceCreditsTwice` an interleaved run that breaks it, and `CustomerWallet.WalletConserved` the
  conservation law when confirmations are atomic.
- **Two receipts of one order can deduct its commission twice.** `submit_receipt` never looks at the
  status, and two photos of one album can be handled at the same time. `Races.RaceDeductsTwice` is
  such a run, `Submissions.DeductionsArePasses` the exact condition, and `Submissions.DeductionLimit` the bound
  by the number of submissions in flight.
- **Deduction and refund can differ by a cent.** The deduction subtracts the unrounded commission, the refund
  adds the stored one. `CommissionWallet.RefundUndoesDeduction` says exactly when.
- **A commission can be refunded more than once**: for a dispute approved again, for two disputes of one order,
  and after a rejection that overwrites an approval. `Refunds.RefundsAreApprovals` counts exactly,
  `Refunds.GuardedRefundsOnce` is a guard that suffices, and the lemmas beside it are the inputs.
- **Packages that lie directly in an operator are deleted with it but not counted**
  (`Catalog.DirectPackagesAreNotCounted`); a third level of categories would be promoted to operators
  (`Catalog.OperatorPromotes`). In a two-level catalog neither happens.
- **A price with a fraction of a toman can be raised by a discount**: 1.50 at 0 percent becomes 2
  (`Discounts.NeverRaisedExactlyWhen`).
- **A failing restore leaves the connection with foreign-key checks off**, because the statement that turns
  them on again is skipped; the tables themselves are rolled back. `Backup.RestoresExactlyWhen` says which
  documents fail, and `Backup.ValidFileThatFails` is one that passes validation.
- **Two discounts applied at once to one order lose one**, and both are counted
  (`DiscountRaces.OneDiscountIsLost`; exactly when, `DiscountRaces.StacksExactlyWhen`).
- **The backup is not of all tables**, as the repository's README has it: `customer_wallet_topups`,
  `reseller_payment_cards`, `feature_flags`, `bill_payments` and `schema_migrations` are not in its list. The
  theorems are about the listed tables.
- **On an empty record every migration file is taken for applied**, new ones too. A database whose first start
  found no file never runs the first one (`Migrator.FirstFileIsNeverRun`, `Migrator.FileIsRunExactlyWhen`).

## Model

| member | source | states |
|---|---|---|
| `Money.StoredKeepsFloor` | services/wallet_service.py:43-55 | A balance whose exact value is not below minus the limit is not below it once stored |
| `Money.StoredIsNearest` | database/schema.sql:14 | The stored amount is the nearest cent; a tie goes away from zero by exactly half a cent |
| `Money.DeductedAgainstLedger` | services/wallet_service.py:44-60 | Balance and ledger row of one deduction differ by a cent exactly at a half-cent tie with a positive balance left |
| `Money.CommissionOfHundreds` | services/order_service.py:212-216 | A percent of p hundredths on k times 100.00 is k times p cents, exactly |
| `Sessions.Session.Rollback` | database/db.py:82-84 | Rollback leaves the committed tables as they were |
| `Stock.LowestIsLowest` | services/charge_service.py:240-245 | The picked rows are available, ascending, at most q, and no available row with a lower id was skipped |
| `Stock.LowestUnique` | services/charge_service.py:240-245 | That description fixes the picked rows |
| `Stock.LowestCount` | services/charge_service.py:240-250 | The scan finds as many rows as are available, up to the limit |
| `Stock.LowestOne` | services/charge_service.py:163-170 | With a limit of one it finds nothing exactly when nothing is available, and otherwise the lowest row |
| `Stock.LowestFrame` | services/charge_service.py:163-168 | A pick is not changed by what other transactions commit while its rows are locked |
| `Purchases.LinkedAfterwards` | services/charge_service.py:173-193 | Buying one code and linking it to its order after the commit leaves what linking inside the transaction leaves, and both are refused together |
| `Purchases.BulkIsSingles` | services/charge_service.py:131-279 | A bulk purchase commits exactly when that many consecutive single purchases, each with its link afterwards, all would, and leaves the same balance, code rows in the same order, orders and links |
| `OrderCodes.SequenceDecides` | services/charge_service.py:42-55 | Two codes of one prefix with sequence numbers are equal only for the same number, whatever clock and suffix |
| `OrderCodes.BatchIsDistinct` | services/charge_service.py:257-258 | The order codes of one batch are pairwise distinct |
| `OrderCodes.CodeParts` | services/charge_service.py:42-55 | Prefix, charge mark, date, time and suffix stand where the format puts them |
| `OrderCodes.BatchParts` | services/charge_service.py:257-258 | Unit i of a batch has the same parts followed by the number i + 1 in at least three digits |
| `OrderCodes.PackageCodeParts` | services/order_service.py:82-88 | The same for the code of a package order |
| `ChargeService.PurchaseChargeBulk` | services/charge_service.py:198-279 | Each refusal exactly when: blacklisted by a row of the list, no such package, balance below price times quantity, stock below quantity; otherwise goes through if and only if the batch's order codes are free. Then the balance falls by price times quantity, the lowest available rows in order are sold and linked, one activated charge order each is added at the package's price, and no other row changes |
| `ChargeService.PayForBatch` | services/charge_service.py:231-272 | The transaction commits exactly when the cart can be bought, hands out the picked rows in order, and names the stock left |
| `ChargeService.CheckBuyer` | services/charge_service.py:215-224 | Refused as blacklisted exactly when a row names the user globally or by this reseller, and as unknown exactly when the package does not exist |
| `ChargeService.DeliverAll` | services/charge_service.py:257-272 | The loop inserts one order and sells one picked row a turn, and fails exactly at an order code that is taken |
| `ChargeService.SellUnit` | services/charge_service.py:257-272 | One unit: order inserted with the row's code, row sold to the buyer, or nothing when the code is taken |
| `ChargeService.PurchaseCharge` | services/charge_service.py:131-195 | The same for one code, with the whole new state written out: goes through if and only if not listed, reseller and package exist, balance covers the package's price, a code is available and the order code is free |
| `ChargeService.PayForOne` | services/charge_service.py:154-195 | The transaction and the link after it, row by row, for a cart priced before |
| `ChargeService.BoughtExactlyWhen` | services/charge_service.py:231-272 | A batch can be bought if and only if balance and number of available codes suffice and its order codes are new and differ |
| `ChargeService.PurchasesAreValid` | services/charge_service.py:149-150 | What the purchase services commit is among the calls the theorems over runs are about |
| `ChargeService.BatchAdmitted` | database/schema.sql:126 | The unique key refuses a batch only because of an order that existed before it |
| `ChargeService.BulkSucceedsExactlyWhen` | services/charge_service.py:231-272 | With stamps of fixed width a batch goes through if and only if balance and number of available codes suffice and none of its order codes is taken by an earlier order |
| `ChargeService.CleanedIsDistinct` | services/charge_service.py:67-74 | The cleaned codes are exactly the non-blank lines, stripped, each once |
| `ChargeService.CleanedInOrder` | services/charge_service.py:67-74 | The cleaned codes stand in the order of their first occurrence |
| `ChargeService.AddChargeCodes` | services/charge_service.py:61-81 | Every cleaned line becomes one available row, numbered from the counter on in order, no other row changes and the number is returned; without the package nothing is added |
| `ChargeService.ClearAvailableCodes` | services/charge_service.py:117-125 | Removes exactly the package's available rows and returns how many went |
| `Solo.SoloMeetsSpec` | database/db.py:66-84 | Run alone, the statements of a transaction commit exactly what its call's specification says and die only where it refuses |
| `Locks.StepFrame` | services/charge_service.py:157-168 | A statement gives the same result after other transactions commit, because it locked what it read |
| `Locks.ExecFrame` | database/db.py:66-84 | Everything a transaction did so far it would do again after others commit |
| `Serial.EveryInterleavingIsSerial` | services/charge_service.py:231-272 | Every interleaving of purchases, receipts, top-ups, refunds, stock and catalog deletes ends as its committed calls replayed one at a time in commit order |
| `Serial.LaterIsReplay` | services/order_service.py:152-171 | Between two points of a run the tables change by the calls committed in between |
| `Serial.FireAdvance` | database/db.py:79-84 | A statement keeps every transaction in step with a run on its own, and a transaction dies only if its whole call would be refused now |
| `Runs.EveryReplayIsARun` | database/db.py:66-84 | Every sequence of valid calls, each accepted at its turn, is an interleaved run that commits exactly these calls: the interleaved runs reach exactly what replays reach |
| `Runs.BothInTheMiddle` | services/charge_service.py:157-168 | Two transactions that lock different rows can be in the middle of any of their statements at the same time |
| `Runs.BothCommitEitherWay` | database/db.py:66-84 | and then both commit, in either order |
| `Fresh.FreshIsFine` | database/schema.sql:8-30 | Before the first order every condition that the theorems over runs ask of their start holds |
| `Serial.AllOrNothing` | database/db.py:66-84 | A commit has the effect of the whole call on the tables just before it; an aborted or dying transaction has none |
| `CodeSales.UnsoldWithoutOrder` | database/schema.sql:124 | A package no order points at has no sold code |
| `CodeSales.SpecAccounts` | services/charge_service.py:173-187 | Every call keeps, per package and string, as many sold rows as charge orders delivering that string |
| `CodeSales.SpecKeepsSold` | services/charge_service.py:112-125 | No call removes a sold row or changes its buyer, code or package |
| `CodeSales.DeliveredCodesAreSoldCodes` | services/charge_service.py:163-187 | In every interleaving the codes delivered on charge orders are the codes on sold rows, with multiplicity |
| `CodeSales.CodesAndOrdersMatch` | services/charge_service.py:257-272 | In every interleaving each delivered code is on a sold row of its package, and each sold row's code was delivered in an order of its package |
| `CodeSales.NoCodeTwice` | services/charge_service.py:231-272 | If the shelf holds each string of a package once, two charge orders of the package carry different codes, in every interleaving |
| `CodeSales.SoldForGood` | services/charge_service.py:163-187 | Between any two points of any interleaving a sold row stays sold, with the same package, code and buyer |
| `CommissionWallet.SpecSurplus` | services/wallet_service.py:52-60 | Every call moves balance and confirmed ledger rows together, up to the half-cent gain of a deduction |
| `CommissionWallet.BalanceFollowsLedger` | services/wallet_service.py:112-140 | In every interleaving the balance is the initial one plus the confirmed ledger rows, plus at most one cent per half-cent deduction |
| `CommissionWallet.CreditLimitHolds` | services/wallet_service.py:43-55 | No interleaving takes a balance below minus the credit limit |
| `Submissions.DeductionsArePasses` | services/order_service.py:195-254 | In every interleaving an order gains one deduction row for each receipt of it that passes with credit as a non-test order and none otherwise; at most one if and only if none passes after one has passed |
| `Submissions.DeductionLimit` | services/order_service.py:191-226 | With every submission of an order begun while it awaits payment and at most k in flight, at most k commit and at most k deduction rows are gained |
| `Submissions.WalletOrdersNeverPass` | services/order_service.py:166-171 | An order paid from the wallet is never submitted and never deducted when submissions begin while their order awaits payment |
| `CommissionWallet.ReplayKeepsCommission` | services/order_service.py:232-249 | Only a receipt of the order writes its stored commission |
| `CommissionWallet.RefundUndoesDeduction` | services/dispute_service.py:32-36 | In every interleaving without another receipt of the order, deduction at receipt and refund at approval give the balance back, or one cent more exactly at a half-cent tie with a positive deducted balance; the two ledger rows cancel |
| `CustomerWallet.SpecExcess` | services/customer_wallet_service.py:86-106 | Every call keeps balance, credited top-ups and wallet-paid orders together, except a confirmation of a credited top-up |
| `CustomerWallet.ConservedUnlessRepeated` | services/customer_wallet_service.py:71-89 | In every interleaving the wallet is conserved if and only if no top-up is confirmed once credited |
| `CustomerWallet.AtomicChecksNeverRepeat` | services/customer_wallet_service.py:74-75 | When the pending check is atomic with the credit no top-up is credited twice |
| `CustomerWallet.WalletConserved` | services/customer_wallet_service.py:62-118 | Over runs of atomic calls the balance is the credited top-ups minus the prices of wallet-paid orders |
| `CustomerWallet.RejectedIsNeverCredited` | services/customer_wallet_service.py:114-118 | A rejected top-up is never credited afterwards by atomic confirmations |
| `CustomerWallet.NobodyOverdraws` | services/charge_service.py:157-161 | No interleaving takes a customer's balance below zero |
| `Races.RaceCreditsTwice` | services/customer_wallet_service.py:71-89 | A run in which two confirmations both find a top-up of 100 pending and the wallet ends at 200 |
| `Races.RaceDeductsTwice` | services/order_service.py:191-226 | A run in which two receipts of one order both find it awaiting payment and the commission is deducted twice |
| `Bounds.FireCounts` | services/order_service.py:195-221 | Only passing the check adds to the orders in review or in flight, and to the test orders used or outstanding |
| `Bounds.ReviewLimit` | services/order_service.py:195-200 | With at most k submissions in flight the orders in review never exceed the limit plus k - 1 |
| `Bounds.TestModeLimit` | services/order_service.py:202-211 | With at most K test orders outstanding, each activated once, the counter never exceeds the limit plus K - 1, from any start that is within that bound |
| `Bounds.TestModeAfter` | services/order_service.py:257-266 | After k activations the counter is k higher and the mode is on exactly while k + 1 is below the limit |
| `Bounds.TestModeLastsExactlyWhen` | services/order_service.py:260-265 | The mode lasts for the documented number of orders if and only if the limit is at most one |
| `WalletService.DeductCommissionInTx` | services/wallet_service.py:24-60 | Over the limit exactly when the exact rest is below minus the credit limit; otherwise the rounded rest and one deduction row, or an error for a missing wallet or a taken row id |
| `WalletService.RefundCommission` | services/wallet_service.py:73-94 | Refunds balance and ledger together, or changes nothing |
| `WalletService.RequestTopup` | services/wallet_service.py:97-109 | Adds one pending ledger row and no money |
| `WalletService.ConfirmTopup` | services/wallet_service.py:112-140 | Credits a pending row once; a confirmed or unknown row changes nothing |
| `OrderService.CreateOrder` | services/order_service.py:91-117 | Refused as blacklisted exactly when a row of the list names the user globally or by this reseller; otherwise one order awaiting payment at the package's price and nothing else |
| `OrderService.CreateOrderPaidByWallet` | services/order_service.py:125-179 | Goes through if and only if not listed, reseller and package exist, balance covers the package's price and the order code is free; then the balance falls by that price and one confirmed order at it is added |
| `OrderService.PayFromWallet` | services/order_service.py:152-171 | The transaction on whatever was committed since the price was read: debit and confirmed order, or nothing |
| `OrderService.CountIsReviewing` | services/order_service.py:73-79 | The service's count is the number of orders in review that the limit is about |
| `OrderService.PendingLimit` | services/order_service.py:195-200 | The bound on orders in review, counted as the service counts them |
| `OrderService.ReceiptMatches` | services/order_service.py:195-217 | What a receipt commits is among the calls the theorems over runs are about, and has passed their checks |
| `OrderService.SubmitReceipt` | services/order_service.py:182-254 | Refused exactly at the pending limit. In test mode below its limit the order is marked and no money moves; otherwise price times percent is deducted with one ledger row, or, when the exact rest is below minus the credit limit, only the order is marked as failed |
| `OrderService.DecisionFreesPlace` | services/order_service.py:269-294 | Confirming or rejecting an order in review frees one of its customer's places and moves no money |
| `OrderService.ActivateOrder` | services/order_service.py:277-286 | Activates the order, and for a test order raises the counter and ends the mode when the raised counter plus one reaches the limit |
| `OrderService.IncrementTestCounterIfNeeded` | services/order_service.py:257-266 | The counter first, then the mode, by left-to-right assignment |
| `CustomerWalletService.ConfirmTopup` | services/customer_wallet_service.py:62-111 | A pending top-up raises the customer's balance by exactly its amount and is marked credited; the reseller's balance falls by amount times percent with one deduction row, or stays when the credit does not suffice; any other case changes nothing |
| `CustomerWalletService.CreditMatches` | services/customer_wallet_service.py:71-80 | What a confirmation commits carries the top-up's own columns and is among the calls the conservation theorems are about |
| `CustomerWalletService.CreateTopupRequest` | services/customer_wallet_service.py:42-48 | Adds one pending request exactly when its keys allow, and nothing else |
| `Disputes.AutoBlacklistLists` | services/blacklist_service.py:49-64 | With enough approved disputes the user ends on the global list, with one automatic entry |
| `Disputes.PerformKeeps` | services/dispute_service.py:25-57 | Every call keeps: three approved disputes means globally listed, one automatic entry each |
| `Disputes.ThreeFakesAreListed` | services/blacklist_service.py:37-64 | After any sequence of calls each user with three approved disputes is globally listed with at most one automatic entry |
| `Disputes.BarredNeverOrdersAgain` | services/blacklist_service.py:12-26 | If a row of the list names a user globally or by a reseller, every order of that user at that reseller after any later calls was there before them |
| `Disputes.OrdersExactlyUnlessListed` | services/order_service.py:97-99 | A call that creates an order has its effect exactly when no row names the buyer's user globally or by the reseller |
| `Disputes.ReportEndsOrders` | services/blacklist_service.py:29-34 | From a report on, the reported user orders nothing more where the report counts |
| `Disputes.ThreeAreListed` | services/blacklist_service.py:49-64 | Three different approved disputes over orders of one user: some row names the user globally |
| `Disputes.ThreeFakesEndOrders` | services/dispute_service.py:47-49 | Three different approved disputes over a user's orders: some row names the user globally, and no later call adds an order for that user at any reseller |
| `Refunds.RefundsAreApprovals` | services/dispute_service.py:25-45 | Over any run an order gains one refund row for each approval of a dispute of it that completes; at most one if and only if none completes once one has |
| `Refunds.GuardedRefundsOnce` | services/dispute_service.py:25-57 | If only pending disputes are approved or rejected, and none while another dispute of its order is approved, an order is refunded at most once |
| `Refunds.TwoDisputesRefundTwice` | services/dispute_service.py:12-36 | Two pending disputes of one order, each approved once, refund its commission twice |
| `Refunds.RejectionForgetsApproval` | services/dispute_service.py:52-57 | A rejection overwrites an approval, and another pending dispute of the order then refunds again with none approved at that moment |
| `Refunds.ApprovedAgainIsRefundedAgain` | services/dispute_service.py:25-57 | The same dispute approved again refunds again, whether it was rejected in between or not |
| `DisputeService.CreateDispute` | services/dispute_service.py:12-22 | Marks the order and opens a pending dispute exactly when its keys allow |
| `DisputeService.ApproveDispute` | services/dispute_service.py:25-49 | Goes through exactly when dispute, order and reseller exist and the row id is free; then the stored commission is paid back with one refund row, dispute and order are marked, and one global entry is added exactly when three approved disputes are reached and none names the user; otherwise nothing changes |
| `DisputeService.MaybeAutoBlacklist` | services/blacklist_service.py:49-64 | Adds one global entry exactly when at least three approved disputes are over the user's orders and no global entry names the user |
| `Catalog.OperatorAtOnce` | handlers/reseller/catalog.py:456-467 | On any tables: the three deletes act as one, refused exactly when a package of the tree has an order |
| `Catalog.PackagesDropExactly` | database/schema.sql:124 | A delete of packages is refused if and only if an order is on one of them; otherwise exactly these packages and their codes go |
| `Catalog.OperatorDropsExactly` | handlers/reseller/catalog.py:456-467 | On any tables: refused if and only if an order's package lies in the operator or in one of its subcategories; otherwise exactly these categories, packages and codes go, row by row |
| `Catalog.SubcategoryDropsExactly` | handlers/reseller/catalog.py:470-474 | The same for a subcategory |
| `Catalog.OrderedPackagesStay` | database/schema.sql:124 | No delete that goes through takes a package from under an order |
| `Catalog.EveryOrderHasItsPackage` | database/schema.sql:124 | However purchases, order creations and package deletes interleave, every order's package is there |
| `Catalog.OperatorPromotes` | handlers/reseller/catalog.py:323-332 | The categories turned into operators are exactly the operator's grandchildren |
| `Catalog.OperatorDelete` | handlers/reseller/catalog.py:456-467 | In a two-level catalog: refused exactly when a package under it was ordered, otherwise exactly the tree goes and nobody is promoted |
| `Catalog.SubcategoryDelete` | handlers/reseller/catalog.py:470-474 | The same for a subcategory |
| `Catalog.DeletesKeepTwoLevels` | handlers/reseller/catalog.py:323-332 | Deletes keep the catalog two-level |
| `Catalog.OperatorImpactIsExact` | handlers/reseller/catalog.py:414-431 | The announced subcategories, packages and available codes are exactly the rows the delete removes |
| `Catalog.SubcategoryImpactIsExact` | handlers/reseller/catalog.py:434-445 | The same for a subcategory |
| `Catalog.PackageImpactIsExact` | handlers/reseller/catalog.py:448-452 | The same for a package |
| `Catalog.DirectPackagesAreNotCounted` | handlers/reseller/catalog.py:421-422 | On any tables the package count is exact if and only if no package lies directly in the operator |
| `Catalog.DeletesAreDrops` | database/schema_phase4.sql:38 | Every tree delete is, but for the categories, the package drop of the interleaved runs |
| `Catalog.SoldCodesSurvive` | database/schema.sql:124 | Every sold row is there unchanged after every tree delete |
| `Catalog.RunDeletePackages` | database/schema.sql:124 | The statement goes through exactly when no order, of whichever kind, is on one of the packages, and takes the packages' codes along |
| `Catalog.RunDeleteCategories` | database/schema.sql:74-86 | The statement takes packages along and clears the parent of what stays |
| `Catalog.DeleteOperatorTree` | handlers/reseller/catalog.py:456-467 | Removes what the specification says or changes nothing at all, and takes no package from under an order |
| `Catalog.DeleteSubcategoryTree` | handlers/reseller/catalog.py:470-474 | Removes what the specification says or changes nothing at all, and takes no package from under an order |
| `Catalog.DeletePackage` | handlers/reseller/catalog.py:477-482 | Goes through exactly when no order is on the package, and removes it with its codes |
| `Catalog.CountOperatorDeletionImpact` | handlers/reseller/catalog.py:414-431 | The nested queries give the three announced numbers |
| `Discounts.HalfEvenIsNearest` | services/discount_service.py:29 | Quantizing moves a price by at most half a toman, whole prices not at all, and a tie goes to the even toman |
| `Discounts.WholePriceIsNotRaised` | services/discount_service.py:27-29 | A percent of a whole-toman price is between zero and the price |
| `Discounts.NeverRaisedExactlyWhen` | services/discount_service.py:29 | No percent raises a price if and only if the price itself rounds down |
| `Discounts.StackedDiscounts` | handlers/customer/orders.py:409-424 | n stacked discounts keep a whole price whole, between zero and itself, within n/2 toman of the exact product |
| `Discounts.MoreCodesCostNoMore` | handlers/customer/orders.py:422-423 | Applying more codes never makes an order dearer |
| `DiscountService.Codes.Validate` | services/discount_service.py:13-24 | Refused as unknown, as out of date exactly when the date has passed, or as exhausted exactly when a limit that is not zero is reached, in this order; accepted otherwise |
| `DiscountService.NormalizedIsUpper` | services/discount_service.py:13-17 | Blanks around the code go and small letters become capitals, nothing else |
| `DiscountService.ApplyDiscountCode` | handlers/customer/orders.py:409-424 | Goes through exactly for an active code whose date has not passed and whose limit is not reached; the price becomes whole tomans within half a toman of the exact product and one use is counted; a refusal changes nothing |
| `DiscountRaces.UsageLimit` | services/discount_service.py:22-36 | However applications of all codes interleave, with at most k of a code in flight it is counted at most k - 1 times beyond its limit |
| `DiscountRaces.RaceCountsAll` | handlers/customer/orders.py:414-424 | k applications to one order that all check before any writes are all counted, k - 1 beyond the limit, and lower the price by one discount only |
| `DiscountRaces.StacksExactlyWhen` | handlers/customer/orders.py:414-423 | The codes applied to one order stack throughout a run if and only if every write gives what it would give from the price as it is then |
| `DiscountRaces.OneDiscountIsLost` | handlers/customer/orders.py:414-424 | Two 10 percent codes at once leave 900 of 1000 tomans instead of 810, and both are counted |
| `SqlText.SplitStatements` | database/migrator.py:34-44 | The loop over the lines computes the statements of the text |
| `SqlText.SplitsBack` | database/migrator.py:34-44 | Joined statements are cut into the same statements, whatever blank and comment lines stand between the lines |
| `SqlText.JoinedSplitsBack` | database/migrator.py:34-44 | Cutting the joined text gives its statements back |
| `SqlText.KeptExactlyWhen` | database/migrator.py:37-41 | A line is kept if and only if its first character that is no blank exists and does not start two dashes |
| `SqlText.CommentLineGoes` | database/migrator.py:37-41 | A blank or comment line anywhere in a file leaves the file's statements as they are without it |
| `Text.StripIsMiddle` | database/migrator.py:43 | Stripping takes blanks from both ends and nothing else |
| `Text.LinesBack` | database/migrator.py:37 | Lines written one under the other are split into the same lines |
| `Migrator.SortedSorts` | database/migrator.py:67 | The files are the directory's, in strict name order |
| `Migrator.FirstDifferenceDecides` | database/migrator.py:67 | Where two names first differ, the smaller character comes first |
| `Migrator.NumbersDecide` | database/migrator.py:67 | Files numbered with four digits come in the order of their numbers |
| `Migrator.FileEntryByEntry` | database/migrator.py:96-115 | One file adds its statements in order and then its record, or the statements before the fault and no record |
| `Migrator.Runner.RunMigrations` | database/migrator.py:47-115 | One start of the program does what the run specification says, fault included |
| `Migrator.Runner.RecordBaseline` | database/migrator.py:72-84 | Records every file without running it |
| `Migrator.Runner.RunPendingFiles` | database/migrator.py:96-115 | The loop over the pending files stops at the first that fails |
| `Migrator.Runner.RunOneFile` | database/migrator.py:96-115 | Runs all statements and then records the file, or stops at the fault unrecorded |
| `Migrator.RunRecordsPrefix` | database/migrator.py:91-115 | A run records a prefix, in name order, of the pending files, and all of them exactly when it ends normally |
| `Migrator.RunOnceOnly` | database/migrator.py:60-115 | Over any starts: recorded only right after all statements ran, nothing runs again once recorded, baseline files never run |
| `Migrator.NormalEndRecordsAll` | database/migrator.py:96-115 | On a growing directory a start that ends normally has recorded every file, for good |
| `Migrator.RunAppends` | database/migrator.py:71-115 | What one start adds to the history, exactly: the reached pending files run and recorded and the statements before the fault, or the baseline |
| `Migrator.FileIsRunExactlyWhen` | database/migrator.py:71-115 | A start runs and records a file if and only if something was recorded before and the file is pending and reached; it baselines it if and only if nothing was |
| `Migrator.FirstFileIsNeverRun` | database/migrator.py:71-84 | After a first start with an empty directory the first file is taken for applied, and none of its statements runs in any later start |
| `BackupText.DecimalBack` | services/backup_service.py:52-53 | A decimal written as text is read back as the same decimal |
| `BackupText.MomentBack` | services/backup_service.py:50-51 | A timestamp written in ISO format is read back as the same timestamp |
| `BackupText.DecimalLooks` | services/backup_service.py:52-53 | A sign only below zero, digits, a point and two digits |
| `BackupText.MomentLooks` | services/backup_service.py:50-51 | The text is YYYY-MM-DDTHH:MM:SS |
| `Backup.RowBack` | services/backup_service.py:115-124 | A row written to the document and inserted again is the same row |
| `Backup.ListedTables` | services/backup_service.py:20-41 | The list holds the twenty tables, each once |
| `Backup.OnlyObjectsLoad` | services/backup_service.py:115-117 | An empty item is skipped; any other item that is no object is an error |
| `Backup.InsertRefuses` | services/backup_service.py:118-124 | Refused: an unknown column, a null where none is allowed, a column left out that has no default |
| `Backup.InsertStores` | services/backup_service.py:118-124 | An object that goes in becomes one row with the named values and the defaults, and its primary key was new |
| `Backup.EntryThatIsNoList` | services/backup_service.py:114-117 | An entry that is no list inserts nothing or is an error, and which |
| `Backup.RestoredRows` | services/backup_service.py:113-124 | After a restore a listed table holds what its items in the document load to |
| `Backup.RestoreGivesBack` | services/backup_service.py:100-126 | Restoring a backup into any later tables gives every listed table back and leaves the others alone |
| `Backup.RowsBack` | services/backup_service.py:113-124 | After every single insert the table holds a prefix of the backup's rows |
| `Backup.RestoreTouchesListed` | services/backup_service.py:110-124 | A successful restore of any document leaves unlisted tables alone and empties listed tables the document lacks |
| `Backup.RestoresExactlyWhen` | services/backup_service.py:110-124 | A restore goes through if and only if every listed table exists and can be iterated, and its items are empty or storable objects with distinct primary keys |
| `Backup.ValidFileThatFails` | services/backup_service.py:85-97 | A document that passes validation and cannot be restored |
| `BackupService.CreateBackup` | services/backup_service.py:57-61 | The loop collects every listed table |
| `BackupService.DeleteAll` | services/backup_service.py:110-111 | Empties the listed tables, last one first |
| `BackupService.LoadTable` | services/backup_service.py:113-124 | The inner loop inserts every item or fails at the first that cannot be inserted |
| `BackupService.LoadAll` | services/backup_service.py:113-124 | The outer loop fills the listed tables, first one first, or fails |
| `BackupService.RestoreFromDict` | services/backup_service.py:100-126 | Restores exactly the restorable documents and changes nothing otherwise; foreign-key checks are on afterwards if and only if the document was restorable |
| `BackupService.PerformSafeRestore` | services/backup_service.py:129-146 | Each of the four faults exactly when: no JSON, a required key missing, tables no object, fewer than three listed tables; then nothing changes. Otherwise the safety document is the state before, and the restore is all or nothing |
| `BackupService.SafetyFileUndoes` | services/backup_service.py:129-146 | Restoring the safety document gives back the whole database as it was before the restore |
| `BackupService.BackupIsValid` | services/backup_service.py:72-97 | Every backup passes validation |
| `ForeignKeys.ParentsComeFirst` | services/backup_service.py:20-41 | The list puts every parent table before its children |
| `ForeignKeys.DeletesKeepKeys` | services/backup_service.py:110-111 | Emptying in reverse list order keeps the foreign keys after every statement |
| `ForeignKeys.InsertsKeepKeys` | services/backup_service.py:113-124 | Inserting a consistent backup in list order keeps the foreign keys after every row |

## Left out

- Telegram handlers, keyboards, dialogue states, notifications and forced-join: user interface and network
  calls. What the settlement code relies on from them is stated as a precondition.
- Zarinpal, crypto settings, token encryption, Excel output, reports, customer statistics, sanity check,
  referral profit: single queries, thin wrappers or foreign libraries.
- `core/bot_manager.py`: task plumbing around one query.
- Snapshot isolation of plain reads, gap locks, deadlock detection and the connection pool: reduced to row
  locks held to the commit. A transaction that would deadlock waits for ever or aborts.
- Overflow of DECIMAL(14,2) and of VARCHAR columns: amounts and strings are unbounded.
- Deleting a reseller and restoring a backup in the middle of a settlement run.
- A backup taken while transactions run: its tables are read one after another, so the backup theorems are
  about a quiescent database.
- Disputes and the blacklist are modelled as whole calls one after another; only the refund and the status
  updates inside them are part of the interleaved runs.
- Foreign keys from unlisted tables into listed ones during a restore (`customer_wallet_topups` refers to
  customers and resellers): the theorems on keys are about the listed tables.
- Columns that carry no rule here: receipt images, phone numbers, `refunded_amount`, timestamps other than
  whether `activated_at` and `confirmed_at` are set, names and titles.
- Settlement.Statement: the status update and the test-counter update of an activation are one step of an
  interleaved run, because only the order's own columns connect them.
- Text.SplitLines: the newline is the only line break, and blanks are space, tab, newline and return.
- DiscountService.Normalized: upper case is modelled for Latin letters.
- Backup.Decode: text that a backup never writes for a number or a timestamp is refused, although MySQL
  would convert some of it; fractional JSON numbers are not modelled.
- Migrator: statements are opaque strings. What a rollback undoes of a partly run file is not modelled,
  because DDL commits implicitly; nor are two programs starting at the same time.
- `reject_order`, `confirm_order`, `activate_order`, `create_dispute` and `approve_dispute` do not look at
  the current status, and neither does the model.
