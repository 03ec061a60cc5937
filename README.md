# InvestHub ledger and account core, modelled in Dafny

InvestHub is a Next.js investment platform. Users deposit money through Razorpay, hold it in a
wallet and receive a monthly profit share. They ask for withdrawals, which an admin approves with a
bank UTR number or rejects. Quarterly, the profit above a minimum is settled out to them. Admins
also keep investment strategies within the platform's liquid funds, publish content, export and
page through transactions, and run the account lifecycle: registration with referral codes, admin
creation, and closure requests.

This project models that core in Dafny, module by module:

- `Common`, `Money`, `Strings`, `Sorting`, `Records`, `WalletModel`: the shared vocabulary.
  - Route results are `Result<T>`; the error kinds follow the routes' HTTP answers.
  - Money is held in integer paise. Each `Number(x.toFixed(2))` becomes a round-half-up division.
  - Also here: the JavaScript string operations the routes rely on (`trim`, `split`, `indexOf`,
    `toLowerCase`), newest-first sorting and paging, and the wallet document with its `$inc` updates.
- `LedgerRoutes`: one `Ledger` class holds the collections the money and account routes update
  (wallets, users, withdrawals, deposits, investments, transactions, notifications, profit
  distributions). Each route is a method on it, and every method keeps the invariant `Valid()`:
  - one wallet per user;
  - no negative `balance` or `payoutWalletBalance`;
  - unique user ids, and all ids below the id counter.

  The two batch routes are split into a planning loop and a write step:
  - `Distribution`: the profit distribution's planning loop, `PlanDistribution`.
  - `Settlement`: the quarterly settlement's planning loop, `PlanSettlement`.

  Each loop is proved equal to a recursive specification function (`Credits`, `Settlements`), and
  what the batch does to every wallet is proved separately.
- `Strategies`: the `StrategyDesk` class for the strategy management route. It covers the
  available-liquid computation, the tenure-split check, and create, update and delete.
- `Reports`, `TransactionExport`, `Content`, `EmailTemplates`:
  - the admin transaction report with pagination;
  - the CSV export of a user's transactions;
  - the content library (validation, storage and the public feed);
  - the HTML e-mail and table templates.
- `UtrApproval`, `StrategyForm`, `UserManagement`, `ContentFeed`, `AllocationCharts`: the logic of
  the admin and dashboard components:
  - the 16-digit UTR dialog;
  - the strategy form's allocation rows and displayed ROI;
  - the user list's search, tab, badge and block toggle;
  - the YouTube embed address;
  - the chart data.

Things the routes get from outside become parameters:
- the session (`Option<Session>`);
- the outcome of the Razorpay signature check (`isAuthentic`);
- the outcome of the ledger service call (`serviceOk`);
- the random four digits of a referral code (`digits`);
- the bcrypt hash (`passwordHash`);
- whether an e-mail address has a valid shape (`emailShaped`);
- whether the export e-mail was sent (`emailSent`);
- the clock (`now`, and the cutoff dates of the export).

## Model

| member | source | states |
|---|---|---|
| LedgerRoutes.Ledger.constructor | src/models/Wallet.ts:16-31 | An empty store satisfies the ledger invariant: one wallet per user, no negative balance or payout balance, ids below the counter. |
| LedgerRoutes.Ledger.RequestWithdrawal | src/app/api/finance/withdraw/route.ts:11-63 | 401 without a session. An amount below one rupee is refused. A missing wallet is 404. Otherwise it succeeds exactly when the balance covers the amount, and a short balance answers "Insufficient balance". On success: the amount is held in the caller's wallet, a PENDING withdrawal is stored under a fresh id, and a PENDING WITHDRAWAL transaction refers to it. Nothing else changes, and every refusal leaves the store untouched. |
| LedgerRoutes.Hold | src/app/api/finance/withdraw/route.ts:42-46 | The hold moves the amount from `balance` to `totalWithdrawn`: their sum is unchanged. When the balance covers the amount, the wallet stays valid. |
| LedgerRoutes.Ledger.ManageWithdrawal | src/app/api/admin/withdraw/manage/route.ts:26-114 | Checks run in the route's order: non-admin is refused; an unknown action is a validation error; APPROVE needs a 16-character UTR; an unknown withdrawal is 404; a non-PENDING one is already processed; a failing ledger call is 500. An approval marks the withdrawal APPROVED with the remark (default "Approved by Admin"), the UTR and the time, adds the amount to the owner's `totalWithdrawn`, and appends an approval notice. A rejection marks it REJECTED with the remark (default "Rejected by Admin"), leaves the wallets alone, and appends a rejection notice. |
| LedgerRoutes.Ledger.VerifyDeposit | src/app/api/finance/deposit/verify/route.ts:12-111 | 401 without a session. An unknown order is 404. An order already SUCCESS answers "already processed" and changes nothing. A bad signature marks the deposit FAILED and changes nothing else. A good one marks it SUCCESS with the payment id and signature, credits the deposit, appends the DEPOSIT transaction (and the referral bonus transaction when there is one), and draws fresh ids for them. |
| LedgerRoutes.ReferralBonus | src/app/api/finance/deposit/verify/route.ts:80-101 | A bonus exists exactly when the depositor is found, has a referrer, and 1% of the deposit rounds to more than zero paise. It goes to the referrer and equals 1% of the deposit rounded half up to the paisa. |
| LedgerRoutes.DepositCredits | src/app/api/finance/deposit/verify/route.ts:59-91 | Each wallet changes in only two ways. The caller's wallet gains the deposit in `balance` and `totalDeposited`. The referrer's wallet gains the bonus in `balance` and `totalProfit`. Every other field of every wallet, the owner included, stays as it was. |
| LedgerRoutes.DepositKeepsValid | src/app/api/finance/deposit/verify/route.ts:59-91 | Crediting a deposit and its bonus keeps one wallet per user and no negative balance. |
| LedgerRoutes.DepositTransactions | src/app/api/finance/deposit/verify/route.ts:70-100 | A verified deposit logs two transactions when a referral bonus is paid and one otherwise. |
| LedgerRoutes.Ledger.DistributeProfit | src/app/api/admin/distribute-profit/route.ts:12-162 | Non-admin is refused. A declared profit below one rupee is refused. With no positive-balance wallet it answers "no eligible investors" and records nothing. Otherwise: the wallets are credited by the batch's credit operations; one PROFIT transaction and one notification is appended per credited wallet; a distribution record is stored (the total, half as admin share, half as user pool, the recipient count); the same figures are answered. |
| LedgerRoutes.Ledger.RecordDistribution | src/app/api/admin/distribute-profit/route.ts:45-149 | The distribution's store writes equal the credits planned from the eligible wallets and their total capital. |
| LedgerRoutes.Ledger.ApplyCredits | src/app/api/admin/distribute-profit/route.ts:136-149 | The bulk writes: wallets become the planned operations applied in order; the transactions get consecutive fresh ids; notifications and the distribution record are appended; the ledger invariant is kept. |
| LedgerRoutes.DistributionCredits | src/app/api/admin/distribute-profit/route.ts:45-74 | Every credit of a batch carries a positive net amount. |
| LedgerRoutes.DistributionKeepsValid | src/app/api/admin/distribute-profit/route.ts:85-137 | Applying a batch of profit credits keeps one wallet per user and no negative balance. |
| Distribution.Eligible | src/app/api/admin/distribute-profit/route.ts:36 | A wallet takes part exactly when its balance is positive. |
| Distribution.EligibleUnique | src/app/api/admin/distribute-profit/route.ts:36 | Selecting the eligible wallets keeps their owners distinct. |
| Distribution.SumBalancePositive | src/app/api/admin/distribute-profit/route.ts:38-48 | With at least one eligible wallet, the total invested capital is positive, so the share ratio is defined. |
| Distribution.AdminShare | src/app/api/admin/distribute-profit/route.ts:30-32 | The admin share and the user pool add up to the declared profit, and they are equal (50% each). |
| Distribution.Share | src/app/api/admin/distribute-profit/route.ts:58-61 | A wallet's gross share is never negative. |
| Distribution.ShareNearest | src/app/api/admin/distribute-profit/route.ts:58-61 | The gross share is `balance / total * pool` rounded to the nearest paisa, with halves rounded up. |
| Distribution.Tds | src/app/api/admin/distribute-profit/route.ts:63-72 | A share up to the 5000-rupee threshold pays no TDS. Above it, the TDS is 10% of the share, rounded half up to the paisa, positive and below the share. |
| Distribution.Credits | src/app/api/admin/distribute-profit/route.ts:58-74 | The batch's credits are never more than its wallets. Each has a positive net, and net plus tax equals the gross share. |
| Distribution.CreditsSound | src/app/api/admin/distribute-profit/route.ts:58-74 | Every credit of the batch is the credit computed for one of its wallets. |
| Distribution.CreditsComplete | src/app/api/admin/distribute-profit/route.ts:58-74 | Every wallet whose net share is positive gets its credit in the batch. |
| Distribution.CreditsDistinct | src/app/api/admin/distribute-profit/route.ts:58-102 | No two credits of a batch target the same user, so no wallet is incremented twice. |
| Distribution.CreditDelta | src/app/api/admin/distribute-profit/route.ts:82-95 | The increment adds the net profit to `totalProfit`. It also adds it to `balance` when the payout preference is COMPOUND or unset, and to `payoutWalletBalance` otherwise. It never takes anything away. |
| Distribution.CreditWallet | src/app/api/admin/distribute-profit/route.ts:58-133 | One loop step: a wallet is credited exactly when its net share is positive. Its wallet operation, PROFIT transaction and notification are then those of its credit. |
| Distribution.PlanDistribution | src/app/api/admin/distribute-profit/route.ts:58-134 | The loop's three bulk-operation lists are exactly the wallet operations, PROFIT transactions and notifications of the specified credits, in wallet order. |
| Distribution.UnroundedSharesSumToPool | src/app/api/admin/distribute-profit/route.ts:45-61 | Before rounding, the shares `balance * declared / (2 * total)` add up to the whole user pool. |
| Distribution.SharesSumNearPool | src/app/api/admin/distribute-profit/route.ts:45-61 | After rounding to paise, the gross shares add up to the user pool within half a paisa per wallet. |
| Distribution.DistributionEffect | src/app/api/admin/distribute-profit/route.ts:58-137 | After the bulk write, a wallet with a positive balance and a positive net share has received exactly its own credit's increment. Every other wallet is unchanged. |
| Distribution.CreditMatches | src/app/api/admin/distribute-profit/route.ts:58-102 | For a credited wallet, the single operation addressed to its owner carries that wallet's own credit. |
| Distribution.OpImpliesCredited | src/app/api/admin/distribute-profit/route.ts:69-74 | An operation addressed to a wallet's owner exists only when that wallet's balance and net share are positive. |
| LedgerRoutes.Ledger.Settle | src/app/api/admin/settle/route.ts:16-154 | Non-admin is refused. A negative minimum fails the schema, and the route's catch answers 500. Otherwise: every wallet's settlement operation is applied; the settlement withdrawals are stored under fresh ids; each settlement's PENDING withdrawal can be read back under its id; every earlier withdrawal keeps its value; the settlement transactions are appended; the answer counts the settlements and sums their net amounts. |
| LedgerRoutes.Ledger.RecordSettlement | src/app/api/admin/settle/route.ts:33-146 | The settlement's store writes equal the settlements planned from the wallets whose profit exceeds the minimum. The count and total are those of the plan. |
| LedgerRoutes.Ledger.ApplySettlements | src/app/api/admin/settle/route.ts:141-146 | The bulk writes: planned wallet operations applied in order, withdrawals put by id, transactions appended with consecutive fresh ids, the ledger invariant kept. |
| LedgerRoutes.SettlementKeepsValid | src/app/api/admin/settle/route.ts:52-146 | Settling keeps one wallet per user and no negative balance. The new withdrawal ids stay below the id counter. |
| LedgerRoutes.SettlementIdsFresh | src/app/api/admin/settle/route.ts:84-99 | Each withdrawal a settlement creates has an id from `first` up to `first` plus the number of eligible wallets. No such id is already in the store, and no two of them are equal. Every id in the store after the inserts stays below that bound. |
| LedgerRoutes.SettlementWithdrawalsStored | src/app/api/admin/settle/route.ts:85-99 | After a settlement's inserts, each settlement's id maps to its PENDING withdrawal of the net amount. Every earlier withdrawal keeps its value. Every other id in the store is one of the settlement ids. |
| LedgerRoutes.FreshSettlementsStored | src/app/api/admin/settle/route.ts:144 | When the settlement ids are new and pairwise distinct, the inserts store each settlement's withdrawal under its id. They keep every earlier withdrawal and add no other id. |
| LedgerRoutes.PlannedTransactions | src/app/api/admin/settle/route.ts:101-145 | The transactions the loop plans, once given consecutive ids, are the ones the settlement specification stores. |
| LedgerRoutes.FreshIdsDistinct | src/app/api/admin/settle/route.ts:85 | Each `new ObjectId()` of a batch is distinct from the others. |
| Settlement.SettlementEligible | src/app/api/admin/settle/route.ts:33 | A wallet is settled exactly when its profit is strictly greater than the minimum balance. |
| Settlement.SettlementEligibleUnique | src/app/api/admin/settle/route.ts:33 | Selecting the wallets to settle keeps their owners distinct. |
| Settlement.Surcharge | src/app/api/admin/settle/route.ts:59-69 | A gross amount up to 50000 rupees pays nothing. Above it, the cess is 1% rounded half up to the paisa, positive and below the gross. |
| Settlement.SettlementOf | src/app/api/admin/settle/route.ts:53-71 | The gross is the profit above the minimum. The net is positive, at most the gross, and net plus cess equals the gross. |
| Settlement.Settlements | src/app/api/admin/settle/route.ts:52-57 | A batch never settles more wallets than it was given. |
| Settlement.SettlementsSound | src/app/api/admin/settle/route.ts:52-71 | Every settlement of a batch is the one computed for a wallet whose user exists, under that wallet's withdrawal id. |
| Settlement.SettlementsComplete | src/app/api/admin/settle/route.ts:52-71 | Every selected wallet whose user exists is settled. |
| Settlement.SettlementsDistinct | src/app/api/admin/settle/route.ts:52-82 | No two settlements of a batch name the same user. |
| Settlement.SettlementIdsDistinct | src/app/api/admin/settle/route.ts:84-90 | With distinct fresh ids, no two settlement withdrawals share an id. |
| Settlement.SettlementsWellFormed | src/app/api/admin/settle/route.ts:59-71 | Every settlement of a batch has a positive net, at most its gross, and a non-negative cess. |
| Settlement.NetWithinGross | src/app/api/admin/settle/route.ts:50-72 | The total settled is at most the total gross, and positive when anything was settled. |
| Settlement.SettleWallet | src/app/api/admin/settle/route.ts:52-116 | One loop step: a wallet is settled exactly when its user exists. Its wallet operation, withdrawal and transaction are then those of its settlement. |
| Settlement.PlanSettlement | src/app/api/admin/settle/route.ts:52-139 | The loop's bulk operations and running total are exactly those of the specified settlements, in wallet order. |
| Settlement.SettlementOpOf | src/app/api/admin/settle/route.ts:74-82 | A wallet's owner receives an operation exactly when its profit exceeds the minimum and its user exists. That operation moves the excess profit. |
| Settlement.SettlementEffect | src/app/api/admin/settle/route.ts:74-143 | After the bulk write, a settled wallet's profit equals the minimum and its `totalWithdrawn` grew by the excess. Every other wallet is unchanged. |
| Settlement.SettlementTargetsDistinct | src/app/api/admin/settle/route.ts:74-82 | No two wallet operations of a settlement target the same user. |
| Settlement.SameOwnerSameSettlement | src/app/api/admin/settle/route.ts:52-82 | A settlement naming a wallet's owner comes from that wallet, so its operation moves that wallet's own excess. |
| Settlement.SettledHasOp | src/app/api/admin/settle/route.ts:52-82 | A wallet above the minimum with an existing user has an operation in the batch. |
| Settlement.SettlementIdsSupplied | src/app/api/admin/settle/route.ts:84-90 | Every settlement's withdrawal id is one of the fresh ids supplied to the batch. |
| LedgerRoutes.Ledger.RequestClosure | src/app/api/user/close-account/route.ts:12-55 | 401 without a session. A wallet holding more than one rupee, or an active investment with a positive amount, refuses the request. A missing user is 404. A pending request is already processed. Otherwise only the caller's closure status, reason and request time change. |
| LedgerRoutes.Ledger.CancelClosure | src/app/api/user/cancel-closure/route.ts:11-31 | 401 without a session. A missing user is 404. Without a pending request the call is refused. Otherwise the closure fields are cleared and nothing else changes. |
| LedgerRoutes.RequestThenCancel | src/app/api/user/cancel-closure/route.ts:27-31 | Cancelling a request restores a user who had no closure fields exactly as before. |
| LedgerRoutes.Ledger.DecideClosure | src/app/api/admin/users/closure/route.ts:10-63 | Non-admin is refused. A missing user id or action is a validation error. An unknown user is 404. APPROVE closes and blocks the account. REJECT clears the closure fields. Any other action is a validation error. Only that user changes. |
| LedgerRoutes.Ledger.Register | src/app/api/auth/register/route.ts:9-72 | A name under 2 characters, a malformed e-mail or a password under 6 characters is refused. A taken e-mail is a conflict. Otherwise one user and one empty wallet are appended: the user is ADMIN exactly when they are the first user; they get a generated referral code and the referrer named by the code, if found. |
| LedgerRoutes.ReferralCodeFor | src/app/api/auth/register/route.ts:46 | The code is the first three characters of the name (fewer for a shorter name) in upper case, followed by the decimal text of the given four-digit random number. |
| LedgerRoutes.Referrer | src/app/api/auth/register/route.ts:48-54 | A referrer is recorded exactly when a non-empty code was sent and some user holds it, and it is that user. |
| LedgerRoutes.AdminsListing | src/app/api/admin/admins/route.ts:11-13 | The admin list holds only admins and every admin, newest first. Each admin appears exactly as many times as in the store, and no non-admin appears at all. |
| LedgerRoutes.Ledger.CreateAdmin | src/app/api/admin/admins/route.ts:24-66 | A missing name, e-mail or password is refused. An existing admin is refused. An existing non-admin is upgraded to ADMIN in place. Otherwise a new ACTIVE admin is appended with payout preference COMPOUND and an "ADMIN" + four-digit referral code, and no wallet. |
| WalletModel.NewWallet | src/models/Wallet.ts:22-43 | A new wallet belongs to the user and every amount starts at zero. |
| WalletModel.ApplyDelta | src/models/Wallet.ts:22-31 | An `$inc` keeps the owner and the untouched fields. An increment that adds nothing negative keeps `balance` and `payoutWalletBalance` at or above 0. |
| WalletModel.FindWallet | src/models/Wallet.ts:16-21 | `findOne({ userId })` finds the first wallet owned by the user, or reports that the user owns none. |
| WalletModel.SameOwnerSameIndex | src/models/Wallet.ts:20 | Under the unique `userId` index, two wallets with the same owner are the same wallet. |
| WalletModel.IncWallet | src/app/api/admin/withdraw/manage/route.ts:78-81 | `findOneAndUpdate({ userId }, { $inc })` changes the owner's wallet by the increment and leaves every other wallet alone. |
| WalletModel.IncWalletKeepsOwners | src/models/Wallet.ts:16-21 | The update keeps one wallet per user, and the owner's wallet stays where it was. |
| WalletModel.IncWalletKeepsValid | src/models/Wallet.ts:22-31 | An increment that adds nothing negative keeps every wallet valid. |
| WalletModel.ApplyWalletOps | src/app/api/admin/distribute-profit/route.ts:137 | A bulk write keeps the number of wallets and their owners. |
| WalletModel.ApplyWalletOpsEffect | src/app/api/admin/settle/route.ts:143 | With distinct targets, each wallet receives exactly the one operation addressed to its owner, or none. |
| WalletModel.ApplyWalletOpsKeepsValid | src/app/api/admin/distribute-profit/route.ts:137 | Bulk increments that add nothing negative keep one wallet per user and no negative balance. |
| Records.FindUser | src/app/api/user/cancel-closure/route.ts:18 | `findById` finds the user with that id, or reports that none has it. |
| Records.FindByEmail | src/app/api/auth/register/route.ts:26 | `findOne({ email })` finds a user with that e-mail, or reports that none has it. |
| Records.FindByReferralCode | src/app/api/auth/register/route.ts:50 | `findOne({ referralCode })` finds a user holding the code, or reports that none holds it. |
| Records.PutAll | src/app/api/admin/settle/route.ts:144 | After the inserts, the withdrawal ids are the old ones plus the inserted ones. |
| Records.PutAllKeeps | src/app/api/admin/settle/route.ts:144 | An id that no insert names keeps its old withdrawal. |
| Records.PutAllLastWrite | src/app/api/admin/settle/route.ts:144 | An insert that no later insert overwrites is stored as written. |
| Records.PutAllFresh | src/app/api/admin/settle/route.ts:144 | Inserts of new, pairwise distinct ids store every entry as written and keep every old withdrawal. |
| Records.WithIds | src/app/api/admin/distribute-profit/route.ts:138 | The inserted transactions get consecutive fresh ids and are otherwise kept as planned. |
| Money.RoundHalfUpNearest | src/app/api/admin/distribute-profit/route.ts:61 | `Number(x.toFixed(2))` on an amount in paise gives the nearest whole paisa, with halves rounded up. |
| Money.RoundHalfUpExact | src/app/api/admin/settle/route.ts:67-68 | Rounding an amount already in whole paise keeps it. |
| Money.RoundHalfUpBetween | src/app/api/finance/deposit/verify/route.ts:84 | A rounded fraction of a non-negative amount lies between zero and the amount. |
| Money.RoundHalfUpMonotone | src/app/api/admin/distribute-profit/route.ts:70-71 | Rounding preserves order. |
| Strategies.StrategyDesk.constructor | src/app/api/strategy/manage/route.ts:9-35 | An empty desk has no strategies, and its ids are unique. |
| Strategies.StrategyDesk.Create | src/app/api/strategy/manage/route.ts:37-77 | Non-admin is refused. A tenure split that does not add up to the capital is a validation error. Capital above the available liquid funds is refused. Otherwise the strategy is appended under a fresh id. |
| Strategies.StrategyDesk.Update | src/app/api/strategy/manage/route.ts:79-126 | Non-admin is refused. An unknown id is 404. A tenure mismatch is refused. New capital above the available funds plus the strategy's old capital is refused. Otherwise only that strategy changes, field by field as the body gives them. |
| Strategies.StrategyDesk.Delete | src/app/api/strategy/manage/route.ts:128-153 | Non-admin is refused. A missing id is a validation error. An unknown id is 404. Otherwise exactly that strategy is removed and the rest keep their order. |
| Strategies.Patched | src/app/api/strategy/manage/route.ts:120 | `findByIdAndUpdate(id, body)` keeps the id. For each of name, category, isActive, totalCapitalDeployed, conservativeROI and tenure: a field the body gives is overwritten, and a field it omits is kept. |
| Strategies.CreateWithinLiquid | src/app/api/strategy/manage/route.ts:62-71 | A create that passes the funds check leaves the free funds non-negative when it is active, and blocks nothing when it is inactive. |
| Strategies.UpdateWithinLiquid | src/app/api/strategy/manage/route.ts:109-120 | An update of an active strategy that passes the check leaves the free funds non-negative. When it deactivates the strategy, the funds grow by the capital it held. |
| Strategies.UpdateOfInactiveCanOvercommit | src/app/api/strategy/manage/route.ts:110-114 | The check adds back an inactive strategy's capital, which blocked nothing. So reactivating it with more capital than is free passes the check and leaves the free funds negative. |
| Strategies.BlockedReplace | src/app/api/strategy/manage/route.ts:28 | Replacing one strategy changes the blocked capital by its new minus its old blocking amount. |
| Strategies.BlockedRemove | src/app/api/strategy/manage/route.ts:143 | Removing a strategy frees exactly the capital it blocked. |
| Strategies.FindStrategy | src/app/api/strategy/manage/route.ts:89 | `findById` finds the strategy with that id, or reports that none has it. |
| Strategies.RemoveById | src/app/api/strategy/manage/route.ts:143 | Deleting by id removes exactly the strategy with that id. |
| Reports.TransactionsReport | src/app/api/admin/reports/transactions/route.ts:12-38 | Page and limit default to 1 and 10. A page below 1 fails (a negative skip). Otherwise the pagination reports the page, `ceil(total / limit)` pages, the total and the limit. The data is the newest-first list from position `(page - 1) * limit`, at most `limit` of them. |
| Reports.CeilDiv | src/app/api/admin/reports/transactions/route.ts:19 | `Math.ceil(n / d)`: the least count of pages of size d that covers n, and zero only for n = 0. |
| Reports.EveryTransactionOnItsPage | src/app/api/admin/reports/transactions/route.ts:14-27 | Every transaction appears on page `k / limit + 1` at position `k % limit`, and that page is within the reported page count. |
| Sorting.SortDescCorrect | src/app/api/admin/reports/transactions/route.ts:23 | Sorting by `createdAt` descending yields a newest-first permutation of the input. |
| Sorting.Page | src/app/api/admin/reports/transactions/route.ts:24-25 | `skip` then `limit` keeps the elements from position `skip` onward, at most `limit` of them, in order. |
| Sorting.PageSorted | src/app/api/admin/reports/transactions/route.ts:23-25 | A page of a newest-first list is newest first. |
| Sorting.Filter | src/app/api/content/route.ts:24 | A query filter keeps exactly the elements satisfying it. |
| Sorting.FilterCounts | src/app/api/admin/admins/route.ts:11 | A query filter keeps each matching element as many times as it occurs, and drops every other element. |
| TransactionExport.Cutoff | src/app/api/user/transactions/export/route.ts:25-38 | "1m", "3m" and "6m" select their cutoff dates. Any other duration, "all" included, selects no cutoff. |
| TransactionExport.SelectedListing | src/app/api/user/transactions/export/route.ts:40-43 | The export holds exactly the caller's transactions created at or after the cutoff, newest first. |
| TransactionExport.Fields | src/app/api/user/transactions/export/route.ts:52-61 | A row has the eight header columns. An empty description becomes "System Transaction" and a missing UTR becomes "-". |
| TransactionExport.Quoted | src/app/api/user/transactions/export/route.ts:62 | Every field is wrapped in double quotes. |
| TransactionExport.Rows | src/app/api/user/transactions/export/route.ts:51-63 | There is one CSV row per selected transaction, in order. |
| TransactionExport.RowColumns | src/app/api/user/transactions/export/route.ts:62 | When no field holds a comma, splitting a row at commas gives back its eight quoted fields. |
| TransactionExport.CsvLines | src/app/api/user/transactions/export/route.ts:50-65 | When no field holds a newline, the file's lines are the header line followed by one row per transaction. |
| TransactionExport.Export | src/app/api/user/transactions/export/route.ts:10-96 | 401 without a session. 404 exactly when the selection is empty. 500 exactly when the e-mail could not be sent. Otherwise the attachment is the CSV of the selection. |
| Content.ParseType | src/models/Content.ts:3-7 | Exactly "VIDEO", "CHART" and "POST" name a content type. |
| Content.TypeText | src/models/Content.ts:3-7 | Each content type's text parses back to that type. |
| Content.Validate | src/app/api/content/route.ts:9-43 | A body is accepted exactly when its title has at least 3 characters, its type is one of the three, and its url starts with "http" or "/". The accepted fields are those of the body, and a refusal is a validation error. |
| Content.Stored | src/models/Content.ts:20-52 | Storing trims the title. A title that trims to nothing fails the required check, so the create throws. Otherwise the item is public, credited to the uploader, and keeps the other fields. |
| Content.BlankTitleFailsOnInsert | src/app/api/content/route.ts:43-53 | A title of three spaces passes the schema but is refused when stored, answering 500. |
| Content.ContentLibrary.Post | src/app/api/content/route.ts:35-64 | Non-admin is refused. An invalid body is 400. A title that trims to nothing is 500. Otherwise the stored item is appended under a fresh id, public and credited to the caller. |
| Content.FeedListing | src/app/api/content/route.ts:24-26 | The feed holds only public items, newest first, at most 20. A public item is left out only when the feed is full of items at least as new. |
| EmailTemplates.EmailLayout | src/lib/email-templates.ts:13-39 | The user name, title, body and year appear unescaped, each right after its fixed text, in that order, and the fixed footer ends the e-mail. |
| EmailTemplates.RowCells | src/lib/email-templates.ts:45-50 | Each table row opens its `<tr>` after the leading newline and indentation, and holds the label and the value in their cells. |
| EmailTemplates.RowBorder | src/lib/email-templates.ts:43-48 | A row's cells carry "border-bottom: none;" exactly when it is the last row. |
| EmailTemplates.RowPieces | src/lib/email-templates.ts:42-51 | There is one row per entry, in order, and only the last one is marked last. |
| EmailTemplates.TableFrameLayout | src/lib/email-templates.ts:53 | The table opens with its style, holds the joined rows, and ends with `</table>`. |
| EmailTemplates.TableRowsInOrder | src/lib/email-templates.ts:42-53 | The rows sit back to back in the table, in entry order. |
| EmailTemplates.TemplateValue | src/lib/email-templates.ts:14-38 | A template literal places each substituted value at its offset, unchanged. |
| EmailTemplates.TemplatePart | src/lib/email-templates.ts:14-38 | A template literal places each fixed part at its offset. |
| Strings.Trim | src/components/admin/WithdrawalApprovalModal.tsx:21 | `trim()` leaves no white space at either end. |
| Strings.TrimCutsOnlySpace | src/components/admin/WithdrawalApprovalModal.tsx:21 | `trim()` removes only white space, and only from the two ends. |
| Strings.ToLower | src/components/admin/UserManagementModal.tsx:108-109 | `toLowerCase()` maps every character through the lower-case mapping. |
| Strings.SplitJoin | src/app/api/user/transactions/export/route.ts:62-65 | Splitting a join at its separator gives back the parts, when no part holds the separator. |
| Strings.SecondPart | src/components/dashboard/ContentFeed.tsx:44-45 | `split(sep)[1]` is missing exactly when the separator does not occur. Otherwise it is the text after the first separator. |
| Strings.BeforeFirst | src/components/dashboard/ContentFeed.tsx:44-45 | `split(sep)[0]` is the longest prefix before the first separator. |
| Strings.AmountText | src/app/api/admin/settle/route.ts:94 | A whole-rupee amount prints as its digits, and a negative one starts with "-". Otherwise the text is the rupee digits, a ".", then one or two digits without a trailing zero whose value in hundredths is the paise part. |
| UtrApproval.Capped | src/components/admin/WithdrawalApprovalModal.tsx:63-69 | The input keeps at most the first 16 characters typed. |
| UtrApproval.ConfirmedUtr | src/components/admin/WithdrawalApprovalModal.tsx:19-29 | Submission confirms exactly when the trimmed input has 16 characters, and confirms that trimmed text. |
| UtrApproval.ConfirmedIsTrimmedInput | src/components/admin/WithdrawalApprovalModal.tsx:21 | The confirmed UTR is the input with only outer white space removed. |
| UtrApproval.CappedConfirmedIsEnabled | src/components/admin/WithdrawalApprovalModal.tsx:21-97 | A capped input that confirms is confirmed unchanged, and its submit button is enabled. |
| UtrApproval.EnabledButRefused | src/components/admin/WithdrawalApprovalModal.tsx:23-97 | A 16-character input starting with a space enables the button but is refused on submit. |
| UtrApproval.UtrDialog.Change | src/components/admin/WithdrawalApprovalModal.tsx:63-69 | Typing stores the capped input and clears the error. |
| UtrApproval.UtrDialog.Submit | src/components/admin/WithdrawalApprovalModal.tsx:19-29 | Submitting confirms the trimmed UTR and clears the error, or sets the 16-digit error. The input is unchanged either way. |
| StrategyForm.InitialForm | src/components/forms/StrategyEntryForm.tsx:16-29 | With no initial data, the ROIs start at 0, the disclosure factor at 0.5, and there is one 100% allocation row. Given rows are kept, and the factor is never 0. |
| StrategyForm.NumberOr | src/components/forms/StrategyEntryForm.tsx:21-26 | A missing or zero initial number falls back to the default; any other given number is kept. |
| StrategyForm.ChangeAllocation | src/components/forms/StrategyEntryForm.tsx:85-89 | Editing a row changes that one field of that row only, and every other row and form field stays. |
| StrategyForm.RemoveAllocationRows | src/components/forms/StrategyEntryForm.tsx:98-103 | Removal keeps the last row. Otherwise it drops exactly the named row and keeps the other form fields. |
| StrategyForm.AddThenRemove | src/components/forms/StrategyEntryForm.tsx:91-103 | Removing the row just added gives back the form. |
| StrategyForm.DisplayedRoi | src/components/forms/StrategyEntryForm.tsx:106-109 | The conservative ROI is `floor(internal * factor)`. |
| StrategyForm.DisplayedRoiBounded | src/components/forms/StrategyEntryForm.tsx:106-109 | With a factor between 0 and 1, the conservative ROI lies between 0 and the internal ROI. |
| StrategyForm.RoiFollowsInputs | src/components/forms/StrategyEntryForm.tsx:106-208 | Changing either the internal ROI or the factor recomputes the conservative ROI from both. Adding or removing rows keeps them in step. The manual override below can break the link. |
| StrategyForm.ManualRoiOverride | src/components/forms/StrategyEntryForm.tsx:214-221 | Typing into the displayed ROI sets that field only. The form stays consistent exactly when the typed number equals `floor(internal * factor)`, so any other number breaks the link. |
| UserManagement.ListedExactly | src/components/admin/UserManagementModal.tsx:107-115 | The list holds exactly the users whose name or e-mail contains the search, ignoring case. On the closure tab, only those with a pending request are listed. |
| UserManagement.SearchIgnoresCase | src/components/admin/UserManagementModal.tsx:108-109 | An upper-cased search lists the same users. |
| UserManagement.EmptySearchListsAll | src/components/admin/UserManagementModal.tsx:107-115 | An empty search on the all-users tab lists everyone in order. |
| UserManagement.BadgeCountsRequests | src/components/admin/UserManagementModal.tsx:175-177 | The badge counts the pending closure requests, which is the closure tab's length with no search. |
| UserManagement.ActionFor | src/components/admin/UserManagementModal.tsx:57 | The toggle blocks exactly the ACTIVE users. |
| UserManagement.ToggleFlips | src/components/admin/UserManagementModal.tsx:57-71 | A toggle always changes the status shown. |
| UserManagement.AfterToggle | src/components/admin/UserManagementModal.tsx:71 | The optimistic update sets only that user's status. |
| UserManagement.AfterToggleIdempotent | src/components/admin/UserManagementModal.tsx:71 | Repeating the same optimistic update changes nothing more. |
| ContentFeed.VideoId | src/components/dashboard/ContentFeed.tsx:43-45 | A "youtu.be" link has an id exactly when "youtu.be/" occurs. Any other link has one exactly when "v=" occurs. |
| ContentFeed.VideoIdFollowsMarker | src/components/dashboard/ContentFeed.tsx:43-45 | The id starts right after the first marker. It holds no stop character ("?" or "&") and no marker. It ends at the end of the link, at a stop character or at the next marker. |
| ContentFeed.EmbedSrc | src/components/dashboard/ContentFeed.tsx:41-48 | The player address always starts with the embed prefix, and is the bare prefix without an id. |
| ContentFeed.ShareLinkEmbedsId | src/components/dashboard/ContentFeed.tsx:43-46 | A "youtu.be/" share link of a clean id embeds exactly that id. |
| ContentFeed.PreviewOf | src/components/dashboard/ContentFeed.tsx:38-66 | Videos get the embedded player when the link is YouTube and the plain video otherwise. Other types get a picture of the url. |
| AllocationCharts.ColoursCycle | src/components/admin/AllocationCharts.tsx:33 | The palette repeats every six entries, and six entries in a row never share a colour. |
| AllocationCharts.BarLabel | src/components/admin/AllocationCharts.tsx:46 | A name of up to 15 characters is kept. A longer one becomes its first 15 characters and "...". |
| AllocationCharts.BarLabelBounded | src/components/admin/AllocationCharts.tsx:46 | A label has at most 18 characters. Two names share a label only when equal, or when both are long with the same first 15 characters. |
| AllocationCharts.PieData | src/components/admin/AllocationCharts.tsx:39-42 | One slice per strategy, named after it, sized by its deployed capital. |
| AllocationCharts.BarData | src/components/admin/AllocationCharts.tsx:45-49 | One bar per strategy, with its label, conservative ROI and category. |
| AllocationCharts.ChartsFor | src/components/admin/AllocationCharts.tsx:36-49 | Nothing is drawn exactly when there are no strategies. Otherwise both charts have one entry per strategy. |
| Common.OrDefault | src/app/api/admin/withdraw/manage/route.ts:72-95 | A remark that is given and non-empty is kept; a missing or empty one falls back to the default. |

## Left out

- Sessions, the Razorpay HMAC, the ledger service, bcrypt, random digits and the clock are not
  modelled as computations. Each is a parameter: `session`, `isAuthentic`, `serviceOk`,
  `passwordHash`, `digits`, `now`.
- `LedgerService` (the approve and reject ledger movements) is not part of this model.
  - Its success or failure is the `serviceOk` parameter.
  - Its effects on the wallets are not modelled, so `ManageWithdrawal` leaves the wallets alone on
    approval and on rejection.
  - In the model, a rejected withdrawal's hold therefore stays deducted from `balance` and counted
    in `totalWithdrawn`. Whether the service refunds it is not visible here.
- The approval adds the amount to `totalWithdrawn` a second time, after the hold already did. This
  is modelled as written.
- E-mails, socket notifications and console logging are side effects not modelled. The one
  exception is the export's e-mail outcome, which is the `emailSent` parameter.
- Concurrency and partial failure are not modelled: each route runs alone, and bulk writes either
  all happen or none do.
- Money is integer paise. The routes' floating-point arithmetic is replaced by exact arithmetic
  with the `toFixed(2)` rounding made explicit (round half up). Binary floating-point errors are not
  modelled. The strategy form works on `real`.
- `AdminsNewestFirst`: the listing carries whole `User` records, `passwordHash` included. The route
  drops that field with `.select("-password")`. The projection changes neither membership nor
  order.
- `Register`: the e-mail format check is the `emailShaped` parameter.
- `Settle`: the zod failure for a negative minimum lands in the route's generic catch, modelled as
  `ServiceFailure`.
- `VerifyDeposit`: the deposit credits the wallet of the session user, not the deposit's owner, as
  the route does.
- `Export`: the export's month cutoffs (`setMonth`) are inputs, not computed.
  - The date and time columns are locale functions passed as parameters.
  - The response on success carries the CSV that is attached to the e-mail.
- `TransactionsReport: requires limit >= 1`. With a limit of 0 or below, the route divides by zero
  or asks the database for a non-positive limit, and neither is modelled.
- Sorting ties are broken in reverse insertion order: among entries with equal keys, the one that
  comes later in the store is listed first. The database's order among equal `createdAt` values
  is unspecified.
- Strings are sequences of code points, not UTF-16 units. Case mapping covers ASCII letters only.
- `ChangeAllocation: requires index < |f.allocation|`. With an index past the end, JavaScript would
  extend the array; the form never passes one.
- `StrategyDesk.Create`: the POST body is taken as a complete strategy. Schema validation of the
  other fields by the database is not modelled.
- `Content.Validate`: fields of the wrong JSON type are treated as missing.
- `ContentFeed.EmbedSrc`: the try/catch fallback to the raw url cannot trigger with the modelled
  string operations and is not modelled.
- `EmailTemplates`: the properties are proved for any fixed text and styles, not just the shipped
  ones.
- Form fields other than the ROI and allocation ones, and all rendering, are not modelled.
- The seed route, the growth calculator and purely presentational components are not part of this
  model.
